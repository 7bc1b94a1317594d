/** Where syncing stops short: exactly when a push takes effect on the device, and what stays stuck. */
module SyncLimits {
  import opened Wrappers
  import opened Roles
  import opened Storage
  import opened Pushing
  import opened Feed
  import opened Devices
  import opened Acknowledging
  import opened Paging
  import opened Replica
  import Text

  // ---- what a push does to the device --------------------------------------------------------------------

  /** The device's row of `s` after pushing `b` with `s` in it and hearing the answer. */
  function AfterPush(d: Device, st: TeamStore, b: Batch, sub: string, role: Role, k: Key): Device {
    match AckFor(AckOf(st, b, sub, role), k)
    case Some(o) => if k in d.rows then Received(d, k, Sent(d.rows[k], o)) else d
    case None => d
  }

  /**
   Exactly when a pushed snippet is clean afterwards: the server had none of that id; or it holds a
   strictly newer one, which then replaces the device's; or the device's is strictly newer and its user
   may edit it. In every other case nothing changes on the device, and the row stays dirty: a newer
   edit of somebody else's record is refused there but not undone here.
   */
  lemma PushedIsCleanIff(d: Device, st: TeamStore, b: Batch, sub: string, role: Role, s: SnippetRec)
    requires Versioned(d) && OncePerId(b) && s in b.snippets
    requires d.Dirty(SnipKey(s.id)) && d.rows[SnipKey(s.id)] == Snip(s)
    ensures var k, held, after := SnipKey(s.id), Held(st, s.id), AfterPush(d, st, b, sub, role, SnipKey(s.id));
      && (!after.Dirty(k) <==>
            || held.None?
            || Beats(Snip(held.value), Snip(s))
            || (MayEdit(st, s.id, sub, role) && Beats(Snip(s), Snip(held.value))))
      && (after.Dirty(k) ==> after == d)
      && k in after.rows
      && after.rows[k] ==
           if held.Some? && Beats(Snip(held.value), Snip(s)) then FromWire(Snip(held.value)) else Snip(s)
  {
    var k := SnipKey(s.id);
    AckForSnippet(st, b, sub, role, s);
    if Held(st, s.id).Some? {
      var held := Snip(Held(st, s.id).value);
      HeldKey(st, s.id);
      AppliedRow(d, FromWire(held), k);
      if Beats(held, Snip(s)) {
        BeatsAsymmetric(held, Snip(s));
      }
    } else {
      NothingHeld(st, s.id);
    }
  }

  lemma HeldKey(st: TeamStore, id: string)
    requires Held(st, id).Some?
    ensures Get(st, SnipKey(id)) == Some(Snip(Held(st, id).value)) && Held(st, id).value.id == id
  {
    FindSound(st.log, SnipKey(id));
  }

  lemma NothingHeld(st: TeamStore, id: string)
    requires Held(st, id).None?
    ensures Get(st, SnipKey(id)) == None
  {
    FindSound(st.log, SnipKey(id));
  }

  /** Groups have no owner: a pushed group stays dirty if and only if the server's has the very same stamp. */
  lemma PushedGroupIsCleanIff(d: Device, st: TeamStore, b: Batch, sub: string, role: Role, g: GroupRec)
    requires Versioned(d) && OncePerId(b) && g in b.groups
    requires d.Dirty(GrpKey(g.id)) && SameStamp(d.rows[GrpKey(g.id)], Grp(g))
    ensures var k, held, after := GrpKey(g.id), Get(st, GrpKey(g.id)), AfterPush(d, st, b, sub, role, GrpKey(g.id));
      && (after.Dirty(k) <==> held.Some? && SameStamp(held.value, Grp(g)))
      && (after.Dirty(k) ==> after == d)
  {
    var k := GrpKey(g.id);
    var pushed := Grp(g.(restricted := false));
    AckForGroup(st, b, sub, role, g);
    FindSound(st.log, k);
    if Get(st, k).Some? {
      var held := Get(st, k).value;
      BeatsTotal(pushed, held);
      if SameStamp(held, pushed) {
        SameStampNeverBeats(held, pushed);
      }
      AppliedRow(d, FromWire(held), k);
    }
  }

  /**
   An edit made while the clock is behind the server's copy is lost: pushed by whomever in whatever
   batch, it comes back as the copy it was meant to replace.
   */
  lemma SlowClockLosesEdit(d: Device, st: TeamStore, edit: SnippetRec, b: Batch, sub: string, role: Role)
    requires Versioned(d) && OncePerId(b) && SnipKey(edit.id) in d.rows
    requires Held(st, edit.id).Some? && Text.Less(edit.updatedAt, Held(st, edit.id).value.updatedAt)
    requires var edited := Edited(d, Snip(edit)); edited.rows[SnipKey(edit.id)].Snip? && edited.rows[SnipKey(edit.id)].s in b.snippets
    ensures AfterPush(Edited(d, Snip(edit)), st, b, sub, role, SnipKey(edit.id)).rows[SnipKey(edit.id)]
         == FromWire(Snip(Held(st, edit.id).value))
  {
    var edited := Edited(d, Snip(edit));
    EditedVersioned(d, Snip(edit));
    EditedRow(d, Snip(edit), SnipKey(edit.id));
    PushedIsCleanIff(edited, st, b, sub, role, edited.rows[SnipKey(edit.id)].s);
  }

  // ---- what stays stuck ----------------------------------------------------------------------------------------

  /** A dirty row that the server's is not newer than, and of which no acceptance is on its way. */
  ghost predicate Stuck(w: World, k: Key) {
    && k in w.device.rows && w.device.Dirty(k)
    && Find(w.server.log, k).Some? && !Beats(Find(w.server.log, k).value.rec, w.device.rows[k])
    && (k in w.flight ==> w.flight[k].outcome.Superseded?)
  }

  lemma NoNewerThanServer(copy: Record, held: Record, mine: Record)
    requires !Beats(copy, held) && !Beats(held, mine)
    ensures !Beats(copy, mine)
  {
    BeatsTotal(copy, held);
    BeatsTotal(held, mine);
    if Beats(copy, mine) && Beats(held, copy) {
      BeatsTransitive(held, copy, mine);
    }
  }

  lemma PushLeavesStuck(team: string, w: World, b: Batch, sub: string, role: Role, k: Key)
    requires Inv(team, w) && Stuck(w, k) && Find(Merged(w.server, b, sub, role).log, k) == Find(w.server.log, k)
    ensures Stuck(Step(team, w, Send(b, sub, role)), k)
    ensures SameStamp(Step(team, w, Send(b, sub, role)).device.rows[k], w.device.rows[k])
  {
    if Idle(w) && Dirt(w.device, b) && Taken(team, w.closed, role, b) {
      var flight := Flight(w.device, b, AckOf(w.server, b, sub, role));
      var after := w.(server := Merged(w.server, b, sub, role), flight := flight);
      SendStep(team, w, b, sub, role);
      NotAccepted(w, b, sub, role, k);
      SentStuck(w, after, k);
      assert Step(team, w, Send(b, sub, role)) == after;
    } else {
      assert Step(team, w, Send(b, sub, role)) == w;
    }
  }

  lemma SentStuck(w: World, after: World, k: Key)
    requires Stuck(w, k) && after.device == w.device && Find(after.server.log, k) == Find(w.server.log, k)
    requires k in after.flight ==> after.flight[k].outcome.Superseded?
    ensures Stuck(after, k)
  {
  }

  lemma AnswerLeavesStuck(team: string, w: World, j: Key, k: Key)
    requires Inv(team, w) && Stuck(w, k)
    ensures Stuck(Step(team, w, Receive(j)), k)
    ensures SameStamp(Step(team, w, Receive(j)).device.rows[k], w.device.rows[k])
  {
    if j in w.flight {
      ReceiveStep(team, w, j);
      assert InFlight(w, j) && InFlight(w, k);
      if w.flight[j].outcome.Superseded? {
        CopyLeavesStuck(w, w.flight[j].outcome.server, k);
      }
    }
  }

  lemma EditLeavesStuck(team: string, w: World, rec: Record, k: Key)
    requires Inv(team, w) && Stuck(w, k) && rec.Key() != k
    ensures Stuck(Step(team, w, Edit(rec)), k)
    ensures SameStamp(Step(team, w, Edit(rec)).device.rows[k], w.device.rows[k])
  {
    EditedRow(w.device, rec, k);
  }

  lemma PullLeavesStuck(team: string, w: World, k: Key)
    requires Inv(team, w) && Stuck(w, k)
    ensures Stuck(Step(team, w, ApplyNext), k)
    ensures SameStamp(Step(team, w, ApplyNext).device.rows[k], w.device.rows[k])
  {
    assert Fetched(w, 0);
    if w.inbox != [] {
      CopyLeavesStuck(w, w.inbox[0], k);
    }
  }

  /**
   One step: a stuck row stays stuck unless the user edits it again or its row on the server changes.
   Pushing it again does neither while the server refuses it, or has the very same record already.
   */
  lemma StuckStays(team: string, w: World, e: Event, k: Key)
    requires Inv(team, w) && Stuck(w, k)
    requires !(e.Edit? && e.rec.Key() == k)
    requires Find(Step(team, w, e).server.log, k) == Find(w.server.log, k)
    ensures Stuck(Step(team, w, e), k) && SameStamp(Step(team, w, e).device.rows[k], w.device.rows[k])
  {
    match e
    case Edit(rec) => EditLeavesStuck(team, w, rec, k);
    case ApplyNext => PullLeavesStuck(team, w, k);
    case Send(b, sub, role) =>
      if Idle(w) && Dirt(w.device, b) && Taken(team, w.closed, role, b) {
        PushLeavesStuck(team, w, b, sub, role, k);
      }
    case Receive(j) => AnswerLeavesStuck(team, w, j, k);
    case _ =>
  }

  /** A push that leaves the server's row as it was has not been accepted. */
  lemma NotAccepted(w: World, b: Batch, sub: string, role: Role, k: Key)
    requires Dirt(w.device, b) && Valid(w.server) && Find(w.server.log, k).Some?
    requires Find(Merged(w.server, b, sub, role).log, k) == Find(w.server.log, k)
    ensures var flight := Flight(w.device, b, AckOf(w.server, b, sub, role));
      k in flight ==> flight[k].outcome.Superseded?
  {
    FindSound(w.server.log, k);
    if k in Flight(w.device, b, AckOf(w.server, b, sub, role)) {
      FlightIsTrue(w, b, sub, role, k);
      assert w.device.rows[k].Key() == k by {
        FlightKeys(w.device, b, k);
      }
      assert Find(w.server.log, k).value.num <= w.server.counter;
    }
  }

  lemma FlightKeys(d: Device, b: Batch, k: Key)
    requires Dirt(d, b) && k in BatchKeys(b)
    ensures k in d.rows && d.rows[k].Key() == k
  {
    match k
    case SnipKey(id) =>
    case GrpKey(id) =>
      var g :| g in b.groups && g.id == id;
      assert g == d.rows[GrpKey(g.id)].g.(restricted := false);
  }

  /** Applying a current record does nothing to a stuck row. */
  lemma CopyLeavesStuck(w: World, rec: Record, k: Key)
    requires Versioned(w.device) && Stuck(w, k) && Confirmed(w.server, rec)
    ensures var after := Applied(w.device, FromWire(rec));
      && k in after.rows && SameStamp(after.rows[k], w.device.rows[k]) && after.Acknowledged(k) == w.device.Acknowledged(k)
  {
    AppliedRow(w.device, FromWire(rec), k);
    if rec.Key() == k {
      NoNewerThanServer(rec, Find(w.server.log, k).value.rec, w.device.rows[k]);
    }
  }

  /** Along these events nobody edits `k` here and nobody rewrites it there. */
  ghost predicate Undisturbed(team: string, w: World, events: seq<Event>, k: Key) {
    events == [] ||
    var pre, e := events[..|events| - 1], events[|events| - 1];
    && Undisturbed(team, w, pre, k)
    && !(e.Edit? && e.rec.Key() == k)
    && Find(Step(team, Run(team, w, pre), e).server.log, k) == Find(Run(team, w, pre).server.log, k)
  }

  /** Over every such continuation, however many cycles it holds, it stays stuck. */
  lemma {:induction false} StuckInRun(team: string, w: World, events: seq<Event>, k: Key)
    requires Inv(team, w) && Stuck(w, k) && Undisturbed(team, w, events, k)
    ensures Stuck(Run(team, w, events), k) && SameStamp(Run(team, w, events).device.rows[k], w.device.rows[k])
  {
    if events == [] {
    } else {
      var pre, e := events[..|events| - 1], events[|events| - 1];
      StuckInRun(team, w, pre, k);
      RunKeeps(team, w, pre);
      StuckStays(team, Run(team, w, pre), e, k);
    }
  }

  // ---- who can free a refused edit -----------------------------------------------------------------------------

  /** A push by somebody who is neither the author nor a manager. */
  ghost predicate Stranger(sub: string, role: Role, author: string) {
    sub != author && !role.AtLeast(Manager)
  }

  /** Such a push leaves the server's row of the snippet alone, whatever its batch holds. */
  lemma StrangersLeaveRow(st: TeamStore, b: Batch, sub: string, role: Role, id: string)
    requires Held(st, id).Some? && Stranger(sub, role, Held(st, id).value.owner)
    ensures Find(Merged(st, b, sub, role).log, SnipKey(id)) == Find(st.log, SnipKey(id))
  {
    var recs := Arrivals(st, b, sub, role);
    forall i | 0 <= i < |recs| ensures recs[i].Key() != SnipKey(id) {
      if recs[i].Key() == SnipKey(id) {
        var s := ArrivedSnippet(st, b, sub, role, recs[i]);
      }
    }
    KeyUntouched(st, recs, SnipKey(id));
  }

  /** The event is no edit of the snippet here, and no push by its author or a manager, from here or elsewhere. */
  ghost predicate Strange(e: Event, id: string, author: string) {
    match e
    case Edit(rec) => rec.Key() != SnipKey(id)
    case Others(_, sub, role) => Stranger(sub, role, author)
    case Send(_, me, myRole) => Stranger(me, myRole, author)
    case _ => true
  }

  lemma StrangeLeavesRow(team: string, w: World, e: Event, id: string)
    requires Held(w.server, id).Some? && Strange(e, id, Held(w.server, id).value.owner)
    ensures Find(Step(team, w, e).server.log, SnipKey(id)) == Find(w.server.log, SnipKey(id))
  {
    match e
    case Others(b, sub, role) => StrangersLeaveRow(w.server, b, sub, role, id);
    case Send(b, me, myRole) => StrangersLeaveRow(w.server, b, me, myRole, id);
    case _ =>
  }

  /**
   A refused edit stays stuck over every history in which its user leaves it and neither the author nor
   a manager pushes: however often this device pushes it, and whatever anybody else does.
   */
  lemma {:induction false} RefusedForGood(team: string, w: World, events: seq<Event>, id: string)
    requires Inv(team, w) && Stuck(w, SnipKey(id)) && Held(w.server, id).Some?
    requires forall i :: 0 <= i < |events| ==> Strange(events[i], id, Held(w.server, id).value.owner)
    ensures var t := Run(team, w, events);
      && Stuck(t, SnipKey(id)) && SameStamp(t.device.rows[SnipKey(id)], w.device.rows[SnipKey(id)])
      && Find(t.server.log, SnipKey(id)) == Find(w.server.log, SnipKey(id))
  {
    if events == [] {
    } else {
      var n := |events| - 1;
      var t := Run(team, w, events[..n]);
      RefusedForGood(team, w, events[..n], id);
      RunKeeps(team, w, events[..n]);
      StrangeLeavesRow(team, t, events[n], id);
      StuckStays(team, t, events[n], SnipKey(id));
    }
  }

  // ---- batches refused as a whole ---------------------------------------------------------------------------------

  /** The user may not lose the race for `j`: the server has nothing of it that is newer. */
  ghost predicate Ahead(w: World, j: Key) {
    var row := Find(w.server.log, j);
    j in w.device.rows && w.device.Dirty(j) && (row.Some? ==> !Beats(row.value.rec, w.device.rows[j]))
  }

  /** A dirty record that is invalid makes every batch it is in one the server refuses. */
  lemma InvalidRecordSpoilsBatch(team: string, w: World, b: Batch, role: Role, k: Key)
    requires Dirt(w.device, b) && k in BatchKeys(b)
    requires k in w.device.rows
    requires match w.device.rows[k] case Snip(s) => !ValidSnippet(team, s) case Grp(g) => !ValidGroup(team, g)
    ensures !Taken(team, w.closed, role, b)
  {
    match k
    case SnipKey(id) =>
      var s :| s in b.snippets && s.id == id;
      assert w.device.rows[SnipKey(s.id)] == Snip(s);
    case GrpKey(id) =>
      var g :| g in b.groups && g.id == id;
      assert w.device.rows[GrpKey(g.id)].Grp? && g == w.device.rows[GrpKey(g.id)].g.(restricted := false);
  }

  /** So does, for a writer, a record of a group that has been closed to the user. */
  lemma ClosedRecordSpoilsBatch(team: string, w: World, b: Batch, role: Role, k: Key)
    requires Dirt(w.device, b) && k in BatchKeys(b) && !role.AtLeast(Manager)
    requires k in w.device.rows
    requires match w.device.rows[k]
      case Snip(s) => s.groupId.Some? && s.groupId.value in w.closed
      case Grp(g) => g.id in w.closed
    ensures !Taken(team, w.closed, role, b)
  {
    match k
    case SnipKey(id) =>
      var s :| s in b.snippets && s.id == id;
      assert w.device.rows[SnipKey(s.id)] == Snip(s);
    case GrpKey(id) =>
      var g :| g in b.groups && g.id == id;
      assert w.device.rows[GrpKey(g.id)].Grp? && g == w.device.rows[GrpKey(g.id)].g.(restricted := false);
  }

  /** The event leaves `j` alone, here and on the server, and pushes nothing the server takes. */
  ghost predicate Spoiled(team: string, w: World, e: Event, j: Key) {
    match e
    case Edit(rec) => rec.Key() != j
    case Others(b, _, _) => j !in BatchKeys(b)
    case Send(b, _, role) => !Taken(team, w.closed, role, b)
    case _ => true
  }

  ghost predicate SpoiledRun(team: string, w: World, events: seq<Event>, j: Key) {
    events == [] ||
    var pre := events[..|events| - 1];
    SpoiledRun(team, w, pre, j) && Spoiled(team, Run(team, w, pre), events[|events| - 1], j)
  }

  lemma OthersLeaveAlone(st: TeamStore, b: Batch, sub: string, role: Role, j: Key)
    requires j !in BatchKeys(b)
    ensures Find(Merged(st, b, sub, role).log, j) == Find(st.log, j)
  {
    var recs := Arrivals(st, b, sub, role);
    forall i | 0 <= i < |recs| ensures recs[i].Key() != j {
      if i < |b.groups| {
        assert b.groups[i] in b.groups && recs[i].Key() == GrpKey(b.groups[i].id);
      } else {
        var s := ArrivedSnippet(st, b, sub, role, recs[i]);
      }
    }
    KeyUntouched(st, recs, j);
  }

  lemma SpoiledLeavesServer(team: string, w: World, e: Event, j: Key)
    requires Spoiled(team, w, e, j)
    ensures Find(Step(team, w, e).server.log, j) == Find(w.server.log, j)
  {
    match e
    case Others(b, sub, role) => OthersLeaveAlone(w.server, b, sub, role, j);
    case _ =>
  }

  lemma SpoiledStaysAhead(team: string, w: World, e: Event, j: Key)
    requires Inv(team, w) && Ahead(w, j) && w.flight == map[] && Spoiled(team, w, e, j)
    ensures var t := Step(team, w, e);
      && Ahead(t, j) && t.flight == map[] && SameStamp(t.device.rows[j], w.device.rows[j])
  {
    SpoiledLeavesServer(team, w, e, j);
    match e
    case Edit(rec) => EditedRow(w.device, rec, j);
    case ApplyNext =>
      if w.inbox != [] {
        assert Fetched(w, 0);
        AppliedRow(w.device, FromWire(w.inbox[0]), j);
        if w.inbox[0].Key() == j {
          NoNewerThanServer(w.inbox[0], Find(w.server.log, j).value.rec, w.device.rows[j]);
        }
      }
    case _ =>
  }

  /**
   While every batch has a record in it for which the server refuses the whole batch, no record is ever
   settled by pushing: over every such history each dirty record that others leave alone stays dirty as it
   is, and the server learns nothing of it.
   */
  lemma {:induction false} SpoiledBatchesSettleNothing(team: string, w: World, events: seq<Event>, j: Key)
    requires Inv(team, w) && Ahead(w, j) && w.flight == map[] && SpoiledRun(team, w, events, j)
    ensures var t := Run(team, w, events);
      && t.device.Dirty(j) && SameStamp(t.device.rows[j], w.device.rows[j])
      && Find(t.server.log, j) == Find(w.server.log, j)
    ensures Ahead(Run(team, w, events), j) && Run(team, w, events).flight == map[]
  {
    if events == [] {
    } else {
      var pre, e := events[..|events| - 1], events[|events| - 1];
      SpoiledBatchesSettleNothing(team, w, pre, j);
      RunKeeps(team, w, pre);
      SpoiledLeavesServer(team, Run(team, w, pre), e, j);
      SpoiledStaysAhead(team, Run(team, w, pre), e, j);
    }
  }

  // ---- two ways to get stuck -------------------------------------------------------------------------------------

  /** A device that has just joined a server with this log. */
  function Joined(st: TeamStore, v: Viewer): World {
    World(st, v, Device(map[], map[], 0), [], 0, map[], {}, {}, {})
  }

  ghost function Push1(s: SnippetRec, me: string, role: Role): Event {
    Send(Batch([s], []), me, role)
  }

  lemma PushOfOne(st: TeamStore, s: SnippetRec, sub: string, role: Role)
    ensures var b := Batch([s], []);
      && Arrivals(st, b, sub, role) == (if MayEdit(st, s.id, sub, role) then [Snip(Stamp(st, s, sub))] else [])
      && Merged(st, b, sub, role) == (if MayEdit(st, s.id, sub, role) then MergeOne(st, Snip(Stamp(st, s, sub))).0 else st)
  {
    var b := Batch([s], []);
    assert [s][..0] == [] && Kept(st, [], sub, role) == [];
    var recs := Arrivals(st, b, sub, role);
    if MayEdit(st, s.id, sub, role) {
      assert Kept(st, [s], sub, role) == [Stamp(st, s, sub)];
      assert recs == [Snip(Stamp(st, s, sub))];
      assert recs[..0] == [] && MergeAll(st, []) == (st, []);
    } else {
      assert recs == [];
    }
  }

  /** A device whose only dirty row is this one may push it by itself. */
  lemma OneIsDirt(d: Device, team: string, s: SnippetRec)
    requires ValidSnippet(team, s) && d.Dirty(SnipKey(s.id)) && d.rows[SnipKey(s.id)] == Snip(s)
    ensures Dirt(d, Batch([s], [])) && ValidBatch(team, Batch([s], [])) && OncePerId(Batch([s], []))
    ensures forall role :: Taken(team, {}, role, Batch([s], []))
    ensures BatchKeys(Batch([s], [])) == {SnipKey(s.id)}
  {
  }

  /** A new snippet, pushed to an empty server, is held there with the same stamp. */
  lemma FirstPushLands(s: SnippetRec, me: string, role: Role)
    ensures var row := Find(Merged(EMPTY, Batch([s], []), me, role).log, SnipKey(s.id));
      row.Some? && SameStamp(row.value.rec, Snip(s))
  {
    PushOfOne(EMPTY, s, me, role);
    FindAfterMergeOne(EMPTY, Snip(Stamp(EMPTY, s, me)), SnipKey(s.id));
  }

  /** The device of a new user who has just created a snippet. */
  lemma Created(v: Viewer, s: SnippetRec)
    requires s.version == 1
    ensures var d := Edited(Joined(EMPTY, v).device, Snip(s));
      d.rows == map[SnipKey(s.id) := Snip(s)] && d.Dirty(SnipKey(s.id)) && d.cursor == 0
  {
  }

  lemma RunThree(team: string, w: World, a: Event, b: Event, c: Event)
    ensures Run(team, w, [a, b, c]) == Step(team, Step(team, Step(team, w, a), b), c)
  {
    RunOne(team, w, a);
    RunSnoc(team, w, [a], b);
    RunSnoc(team, w, [a] + [b], c);
    assert [a] + [b] + [c] == [a, b, c];
  }

  /** A lost reply: create any valid snippet, push it, and lose the acknowledgement. */
  lemma LostReplySticks(team: string, v: Viewer, s: SnippetRec, me: string, role: Role)
    requires ValidSnippet(team, s) && s.version == 1
    ensures var w := Run(team, Joined(EMPTY, v), [Edit(Snip(s)), Push1(s, me, role), Fail]);
      Inv(team, w) && Stuck(w, SnipKey(s.id)) && SameStamp(Get(w.server, SnipKey(s.id)).value, w.device.rows[SnipKey(s.id)])
  {
    var w := Joined(EMPTY, v);
    Reachable(team, w, [Edit(Snip(s)), Push1(s, me, role), Fail]);
    RunThree(team, w, Edit(Snip(s)), Push1(s, me, role), Fail);
    var d := Edited(w.device, Snip(s));
    Created(v, s);
    OneIsDirt(d, team, s);
    var st := Merged(EMPTY, Batch([s], []), me, role);
    SendStep(team, w.(device := d), Batch([s], []), me, role);
    assert Run(team, Joined(EMPTY, v), [Edit(Snip(s)), Push1(s, me, role), Fail]) == w.(device := d, server := st);
    FirstPushLands(s, me, role);
    SameStampNeverBeats(Find(st.log, SnipKey(s.id)).value.rec, Snip(s));
  }

  // ---- a server with one snippet ---------------------------------------------------------------------------------

  function Holding(s: SnippetRec): TeamStore {
    TeamStore(1, [Row(1, Snip(s))])
  }

  lemma HoldingIsSound(team: string, s: SnippetRec)
    requires ValidSnippet(team, s)
    ensures Valid(Holding(s)) && AllVetted(team, Holding(s)) && Sound(Holding(s))
    ensures Find(Holding(s).log, SnipKey(s.id)) == Some(Row(1, Snip(s)))
  {
  }

  lemma RowsOfHolding(s: SnippetRec)
    ensures After(Holding(s).log, 0) == [Row(1, Snip(s))] && After(Holding(s).log, 1) == []
  {
    AfterAll(Holding(s).log, 0);
    AfterNone(Holding(s).log, 1);
  }

  lemma ShownOfHolding(v: Viewer, s: SnippetRec)
    ensures var shown := Shown(v, [Row(1, Snip(s))]);
      Snippets(shown) == (if v.Sees(Snip(s)) then [s] else []) && Groups(shown) == []
  {
    ShownSnoc(v, [], Row(1, Snip(s)));
    assert [] + [Row(1, Snip(s))] == [Row(1, Snip(s))] && [] + [Snip(s)] == [Snip(s)];
    PartsSnoc([], Snip(s));
  }

  /** The first page from this server, whatever its size. */
  lemma FirstPage(team: string, v: Viewer, s: SnippetRec, since: nat, n: nat)
    requires ValidSnippet(team, s) && since == 0 && n >= 1
    ensures Serve(v, StoredPage(Holding(s), since, n)) == Page(if v.Sees(Snip(s)) then [s] else [], [], 1, false)
  {
    var page := Serve(v, StoredPage(Holding(s), since, n));
    HoldingIsSound(team, s);
    RowsOfHolding(s);
    ShownOfHolding(v, s);
    PageIsPrefix(v, Holding(s), since, n);
    CursorPastHolding(s, page.nextCursor);
  }

  lemma CursorPastHolding(s: SnippetRec, next: nat)
    requires next <= 1 && After(Holding(s).log, next) == []
    ensures next == 1
  {
    RowsOfHolding(s);
  }

  /** And the one behind it. */
  lemma NextPageIsEmpty(team: string, v: Viewer, s: SnippetRec, since: nat, n: nat)
    requires ValidSnippet(team, s) && since == 1 && n >= 1
    ensures Serve(v, StoredPage(Holding(s), since, n)) == Page([], [], 1, false)
  {
    HoldingIsSound(team, s);
    RowsOfHolding(s);
    PageIsPrefix(v, Holding(s), since, n);
  }

  // ---- refused --------------------------------------------------------------------------------------------------------

  /** The device after its first pull, with the one snippet its user may see. */
  function Pulled1(s: SnippetRec, v: Viewer): World {
    World(Holding(s), v, Device(map[SnipKey(s.id) := Snip(s)], map[SnipKey(s.id) := s.version], 1), [], 1, map[], {}, {}, {})
  }

  /** A valid snippet comes through the quarantine as it is. */
  lemma ValidIsNotQuarantined(team: string, s: SnippetRec)
    requires ValidSnippet(team, s)
    ensures FromWire(Snip(s)) == Snip(s)
  {
  }

  lemma InboxOfHolding(s: SnippetRec)
    ensures Inbox(Page([], [], 1, false)) == [] && Inbox(Page([s], [], 1, false)) == [Snip(s)]
  {
  }

  lemma HiddenOfHolding(v: Viewer, s: SnippetRec)
    ensures Hidden(v, Holding(s), 0, 1) == if v.Sees(Snip(s)) then {} else {Row(1, Snip(s))}
    ensures Hidden(v, Holding(s), 1, 1) == {}
  {
  }

  lemma FetchOfHolding(team: string, w: World, s: SnippetRec, n: nat)
    requires ValidSnippet(team, s) && Idle(w) && w.server == Holding(s) && w.device.cursor == 0
    ensures var seen := w.viewer.Sees(Snip(s));
      Step(team, w, Fetch(n)) ==
        w.(inbox := if seen then [Snip(s)] else [], target := 1, skipped := if seen then {} else {Row(1, Snip(s))})
  {
    var page := Page(if w.viewer.Sees(Snip(s)) then [s] else [], [], 1, false);
    FirstPage(team, w.viewer, s, w.device.cursor, Clamp(Some(n)));
    FetchStep(team, w, n, page);
    InboxOfHolding(s);
    HiddenOfHolding(w.viewer, s);
  }

  lemma FetchesNothing(team: string, w: World, s: SnippetRec, n: nat)
    requires ValidSnippet(team, s) && Idle(w) && w.server == Holding(s) && w.device.cursor == 1 && w.skipped == {}
    ensures Step(team, w, Fetch(n)) == w
  {
    NextPageIsEmpty(team, w.viewer, s, w.device.cursor, Clamp(Some(n)));
    FetchStep(team, w, n, Page([], [], 1, false));
    InboxOfHolding(s);
    HiddenOfHolding(w.viewer, s);
  }

  lemma FirstApplied(s: SnippetRec)
    ensures Applied(Device(map[], map[], 0), Snip(s)) == Device(map[SnipKey(s.id) := Snip(s)], map[SnipKey(s.id) := s.version], 0)
  {
  }

  lemma FirstPageApplied(team: string, v: Viewer, s: SnippetRec)
    requires FromWire(Snip(s)) == Snip(s)
    ensures var fetched := Joined(Holding(s), v).(inbox := [Snip(s)], target := 1);
      Step(team, Step(team, fetched, ApplyNext), Finish) == Pulled1(s, v)
  {
    var fetched := Joined(Holding(s), v).(inbox := [Snip(s)], target := 1);
    FirstApplied(s);
    ApplyStep(team, fetched);
    assert [Snip(s)][1..] == [];
    FinishStep(team, Step(team, fetched, ApplyNext));
    assert fetched.unseen + fetched.skipped == {};
  }

  lemma FirstPull(team: string, v: Viewer, s: SnippetRec, n: nat)
    requires ValidSnippet(team, s) && v.Sees(Snip(s))
    ensures Run(team, Joined(Holding(s), v), [Fetch(n), ApplyNext, Finish]) == Pulled1(s, v)
  {
    var w := Joined(Holding(s), v);
    RunThree(team, w, Fetch(n), ApplyNext, Finish);
    FetchOfHolding(team, w, s, n);
    ValidIsNotQuarantined(team, s);
    FirstPageApplied(team, v, s);
  }

  /** Its user then edits the snippet. */
  lemma EditedAfterPull(v: Viewer, s: SnippetRec, mine: SnippetRec)
    requires mine.id == s.id && mine.version == s.version + 1
    ensures var d := Edited(Pulled1(s, v).device, Snip(mine));
      d.rows == map[SnipKey(s.id) := Snip(mine)] && d.Acknowledged(SnipKey(s.id)) == s.version && d.cursor == 1
  {
  }

  lemma HeldByHolding(s: SnippetRec)
    ensures Held(Holding(s), s.id) == Some(s)
  {
  }

  /** A writer's push of an edit of somebody else's snippet: nothing is stored, the answer shows what is. */
  lemma RefusedPush(d: Device, s: SnippetRec, mine: SnippetRec, me: string)
    requires mine.id == s.id && s.owner != me && d.rows == map[SnipKey(s.id) := Snip(mine)]
    ensures var b := Batch([mine], []);
      && Merged(Holding(s), b, me, Writer) == Holding(s)
      && Flight(d, b, AckOf(Holding(s), b, me, Writer)) == map[SnipKey(s.id) := Sent(Snip(mine), Superseded(s.id, Snip(s)))]
  {
    var b := Batch([mine], []);
    HeldByHolding(s);
    PushOfOne(Holding(s), mine, me, Writer);
    AckForSnippet(Holding(s), b, me, Writer, mine);
    assert BatchKeys(b) == {SnipKey(s.id)};
  }

  /**
   A refused edit: pull somebody else's record, edit it with a later clock, push it as a writer, and
   hear the answer. The server keeps its record, the device its edit, still dirty.
   */
  lemma RefusedEditSticks(team: string, v: Viewer, s: SnippetRec, mine: SnippetRec, me: string, n: nat)
    requires ValidSnippet(team, s) && ValidSnippet(team, mine) && v.Sees(Snip(s))
    requires mine.id == s.id && s.owner != me && mine.version == s.version + 1 && Text.Less(s.updatedAt, mine.updatedAt)
    ensures var w := Run(team, Joined(Holding(s), v), [Fetch(n), ApplyNext, Finish] + [Edit(Snip(mine)), Push1(mine, me, Writer), Receive(SnipKey(s.id))]);
      && Inv(team, w) && Idle(w) && Stuck(w, SnipKey(s.id))
      && w.server == Holding(s) && w.device.rows[SnipKey(s.id)] == Snip(mine)
  {
    var k, w := SnipKey(s.id), Joined(Holding(s), v);
    HoldingIsSound(team, s);
    Reachable(team, w, [Fetch(n), ApplyNext, Finish] + [Edit(Snip(mine)), Push1(mine, me, Writer), Receive(k)]);
    RunConcat(team, w, [Fetch(n), ApplyNext, Finish], [Edit(Snip(mine)), Push1(mine, me, Writer), Receive(k)]);
    FirstPull(team, v, s, n);
    RefusedCycle(team, v, s, mine, me);
    BeatsAsymmetric(Snip(mine), Snip(s));
  }

  lemma RefusedCycle(team: string, v: Viewer, s: SnippetRec, mine: SnippetRec, me: string)
    requires ValidSnippet(team, s) && ValidSnippet(team, mine)
    requires mine.id == s.id && s.owner != me && mine.version == s.version + 1 && Text.Less(s.updatedAt, mine.updatedAt)
    ensures var pulled, k := Pulled1(s, v), SnipKey(s.id);
      && Run(team, pulled, [Edit(Snip(mine)), Push1(mine, me, Writer), Receive(k)]) == pulled.(device := Edited(pulled.device, Snip(mine)))
      && Edited(pulled.device, Snip(mine)).rows == map[k := Snip(mine)] && Edited(pulled.device, Snip(mine)).Dirty(k)
      && Edited(pulled.device, Snip(mine)).cursor == 1
  {
    var pulled, k := Pulled1(s, v), SnipKey(s.id);
    RunThree(team, pulled, Edit(Snip(mine)), Push1(mine, me, Writer), Receive(k));
    var d := Edited(pulled.device, Snip(mine));
    EditedAfterPull(v, s, mine);
    OneIsDirt(d, team, mine);
    RefusedPush(d, s, mine, me);
    BeatsAsymmetric(Snip(mine), Snip(s));
    var sent := pulled.(device := d, flight := map[k := Sent(Snip(mine), Superseded(s.id, Snip(s)))]);
    SendStep(team, pulled.(device := d), Batch([mine], []), me, Writer);
    ReceiveStep(team, sent, k);
    ValidIsNotQuarantined(team, s);
    assert Received(d, k, sent.flight[k]) == d;
  }

  // ---- granted too late -----------------------------------------------------------------------------------------------

  /** A record the cursor has passed and the device does not have. */
  ghost predicate Absent(w: World, k: Key) {
    k !in w.device.rows && Find(w.server.log, k).Some? && Find(w.server.log, k).value.num <= w.device.cursor
  }

  /** One step, a change of what the user may see included: it stays absent unless it is edited here or rewritten there. */
  lemma AbsentStays(team: string, w: World, e: Event, k: Key)
    requires Inv(team, w) && Absent(w, k)
    requires !(e.Edit? && e.rec.Key() == k)
    requires Find(Step(team, w, e).server.log, k) == Find(w.server.log, k)
    ensures Absent(Step(team, w, e), k)
  {
    assert InFlight(w, k) && Fetched(w, 0);
    match e
    case Edit(rec) => EditedRow(w.device, rec, k);
    case ApplyNext =>
      if w.inbox != [] {
        AppliedRow(w.device, FromWire(w.inbox[0]), k);
      }
    case Receive(j) =>
      if j in w.flight && w.flight[j].outcome.Superseded? {
        assert InFlight(w, j);
        AppliedRow(w.device, FromWire(w.flight[j].outcome.server), k);
      }
    case _ =>
  }

  /** Over every such continuation, whatever is granted along it. */
  lemma {:induction false} AbsentInRun(team: string, w: World, events: seq<Event>, k: Key)
    requires Inv(team, w) && Absent(w, k) && Undisturbed(team, w, events, k)
    ensures Absent(Run(team, w, events), k)
  {
    if events == [] {
    } else {
      var pre, e := events[..|events| - 1], events[|events| - 1];
      AbsentInRun(team, w, pre, k);
      RunKeeps(team, w, pre);
      AbsentStays(team, Run(team, w, pre), e, k);
    }
  }

  /** The device that pulled while the snippet was hidden, and whose user has been let in since. */
  function Granted(s: SnippetRec, v: Viewer): World {
    World(Holding(s), v, Device(map[], map[], 1), [], 1, map[], {}, {Row(1, Snip(s))}, {})
  }

  lemma HiddenPull(team: string, before: Viewer, after: Viewer, s: SnippetRec, n: nat)
    requires ValidSnippet(team, s) && !before.Sees(Snip(s))
    ensures Run(team, Joined(Holding(s), before), [Fetch(n), Finish, Regrant(after, {})]) == Granted(s, after)
  {
    var w := Joined(Holding(s), before);
    RunThree(team, w, Fetch(n), Finish, Regrant(after, {}));
    FetchOfHolding(team, w, s, n);
    var fetched := w.(target := 1, skipped := {Row(1, Snip(s))});
    FinishStep(team, fetched);
    assert fetched.unseen + fetched.skipped == {Row(1, Snip(s))};
  }

  lemma NothingMore(team: string, v: Viewer, s: SnippetRec, n: nat)
    requires ValidSnippet(team, s)
    ensures Run(team, Granted(s, v), [Fetch(n), ApplyNext, Finish]) == Granted(s, v)
  {
    var w := Granted(s, v);
    RunThree(team, w, Fetch(n), ApplyNext, Finish);
    FetchesNothing(team, w, s, n);
    IdleChangesNothing(team, w);
  }

  lemma IdleChangesNothing(team: string, w: World)
    requires Idle(w) && w.skipped == {}
    ensures Step(team, w, ApplyNext) == w && Step(team, w, Finish) == w
  {
    assert w.unseen + {} == w.unseen && w.device.(cursor := w.target) == w.device;
  }

  /**
   A grant that comes too late: pull while a snippet is hidden, be let in, pull again. The device is up
   to date, its user may see the snippet, and the snippet is not there.
   */
  lemma LateGrantMisses(team: string, before: Viewer, after: Viewer, s: SnippetRec, n: nat)
    requires ValidSnippet(team, s) && !before.Sees(Snip(s)) && after.Sees(Snip(s))
    ensures var w := Run(team, Joined(Holding(s), before), [Fetch(n), Finish, Regrant(after, {})] + [Fetch(n), ApplyNext, Finish]);
      && Inv(team, w) && UpToDate(w)
      && w.server == Holding(s) && w.viewer == after
      && Absent(w, SnipKey(s.id)) && w.unseen == {Row(1, Snip(s))}
  {
    var w := Joined(Holding(s), before);
    HoldingIsSound(team, s);
    Reachable(team, w, [Fetch(n), Finish, Regrant(after, {})] + [Fetch(n), ApplyNext, Finish]);
    RunConcat(team, w, [Fetch(n), Finish, Regrant(after, {})], [Fetch(n), ApplyNext, Finish]);
    HiddenPull(team, before, after, s, n);
    NothingMore(team, after, s, n);
  }
}
