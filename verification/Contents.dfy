/**
 When stamps that agree mean contents that agree: as long as one stamp of a record stands for one body.
 Left aside are the author, which the server sets, the server's flag on groups, and the group of a
 snippet if that group is ever deleted: its members are released without a stamp of their own.
 */
module Contents {
  import opened Wrappers
  import opened Roles
  import opened Storage
  import opened Pushing
  import opened Feed
  import opened Devices
  import opened Acknowledging
  import opened Paging
  import opened Replica

  /** What a stamp of a record stands for, and which groups are ever deleted. */
  datatype Meaning = Meaning(of: (Key, string, int) -> Record, gone: string -> bool)

  /** A record without its author and the server's flag, and out of its group if that is one ever deleted. */
  function Body(m: Meaning, rec: Record): Record {
    match rec
    case Snip(s) =>
      var released := s.groupId.Some? && m.gone(s.groupId.value);
      Snip(s.(owner := "", groupId := if released then None else s.groupId))
    case Grp(g) => Grp(g.(restricted := false))
  }

  predicate Says(m: Meaning, rec: Record) {
    && m.of(rec.Key(), rec.UpdatedAt(), rec.Version()) == Body(m, rec)
    && (rec.Grp? && rec.g.deletedAt.Some? ==> m.gone(rec.g.id))
  }

  /** What the server stores: it says what its stamp means, and comes through the quarantine as it is. */
  predicate Fine(m: Meaning, rec: Record) {
    Says(m, rec) && (rec.Snip? ==> Syncable(rec.s))
  }

  ghost predicate FineLog(m: Meaning, st: TeamStore) {
    forall row :: row in st.log ==> Fine(m, row.rec)
  }

  ghost predicate FineOutcome(m: Meaning, o: PushOutcome) {
    o.Superseded? ==> Fine(m, o.server)
  }

  ghost predicate RowsSay(m: Meaning, d: Device) {
    forall k :: k in d.rows ==> Says(m, d.rows[k])
  }

  ghost predicate Agreed(m: Meaning, w: World) {
    && FineLog(m, w.server) && RowsSay(m, w.device)
    && (forall i :: 0 <= i < |w.inbox| ==> Fine(m, w.inbox[i]))
    && (forall k :: k in w.flight ==> FineOutcome(m, w.flight[k].outcome))
  }

  ghost predicate BatchSays(m: Meaning, b: Batch) {
    (forall s :: s in b.snippets ==> Says(m, Snip(s))) && (forall g :: g in b.groups ==> Says(m, Grp(g)))
  }

  /** What other devices push and what the user writes gives no stamp a second meaning. */
  ghost predicate Obeys(m: Meaning, w: World, e: Event) {
    match e
    case Others(b, _, _) => BatchSays(m, b)
    case Edit(rec) => Says(m, Edited(w.device, rec).rows[rec.Key()])
    case _ => true
  }

  // ---- the server ------------------------------------------------------------------------------------------------

  lemma {:induction false} MergeIsFine(m: Meaning, st: TeamStore, recs: seq<Record>)
    requires FineLog(m, st) && forall r :: r in recs ==> Fine(m, r)
    ensures FineLog(m, MergeAll(st, recs).0)
    ensures forall o :: o in MergeAll(st, recs).1 ==> FineOutcome(m, o)
  {
    if recs == [] {
    } else {
      var n := |recs| - 1;
      var before := MergeAll(st, recs[..n]).0;
      MergeIsFine(m, st, recs[..n]);
      MergeOneIsFine(m, before, recs[n]);
    }
  }

  lemma MergeOneIsFine(m: Meaning, st: TeamStore, rec: Record)
    requires FineLog(m, st) && Fine(m, rec)
    ensures FineLog(m, MergeOne(st, rec).0) && FineOutcome(m, MergeOne(st, rec).1)
  {
    FindSound(st.log, rec.Key());
    forall row | row in MergeOne(st, rec).0.log ensures Fine(m, row.rec) {
      WithoutMembers(st.log, rec.Key(), row);
    }
  }

  lemma ArrivalIsFine(m: Meaning, team: string, st: TeamStore, b: Batch, sub: string, role: Role, i: nat)
    requires ValidBatch(team, b) && BatchSays(m, b) && i < |Arrivals(st, b, sub, role)|
    ensures Fine(m, Arrivals(st, b, sub, role)[i])
  {
    var recs := Arrivals(st, b, sub, role);
    if i < |b.groups| {
      assert b.groups[i] in b.groups && recs[i] == Grp(b.groups[i].(restricted := false));
    } else {
      var s := ArrivedSnippet(st, b, sub, role, recs[i]);
      assert Says(m, Snip(s)) && ValidSnippet(team, s);
    }
  }

  lemma PushIsFine(m: Meaning, team: string, st: TeamStore, b: Batch, sub: string, role: Role)
    requires FineLog(m, st) && ValidBatch(team, b) && BatchSays(m, b)
    ensures FineLog(m, Merged(st, b, sub, role))
    ensures forall o :: o in AckOf(st, b, sub, role).snippets + AckOf(st, b, sub, role).groups ==> FineOutcome(m, o)
  {
    var recs := Arrivals(st, b, sub, role);
    forall i | 0 <= i < |recs| ensures Fine(m, recs[i]) {
      ArrivalIsFine(m, team, st, b, sub, role, i);
    }
    MergeIsFine(m, st, recs);
    forall o | o in Rejected(st, b.snippets, sub, role) ensures FineOutcome(m, o) {
      RejectedTells(st, b.snippets, sub, role, o);
      FindSound(st.log, SnipKey(o.id));
    }
  }

  // ---- the device ---------------------------------------------------------------------------------------------------

  lemma WireKeepsBody(m: Meaning, rec: Record)
    requires Fine(m, rec)
    ensures Says(m, FromWire(rec))
  {
  }

  lemma AppliedSays(m: Meaning, d: Device, rec: Record)
    requires RowsSay(m, d) && Fine(m, rec)
    ensures RowsSay(m, Applied(d, FromWire(rec)))
  {
    WireKeepsBody(m, rec);
  }

  lemma BatchOfDirtSays(m: Meaning, d: Device, b: Batch)
    requires RowsSay(m, d) && Dirt(d, b)
    ensures BatchSays(m, b)
  {
    forall g | g in b.groups ensures Says(m, Grp(g)) {
      var held := d.rows[GrpKey(g.id)];
      assert held.Grp? && g == held.g.(restricted := false) && Says(m, held);
    }
  }

  lemma SendAgrees(m: Meaning, team: string, w: World, b: Batch, sub: string, role: Role)
    requires Agreed(m, w) && Idle(w) && Dirt(w.device, b) && Taken(team, w.closed, role, b)
    ensures Agreed(m, Step(team, w, Send(b, sub, role)))
  {
    SendStep(team, w, b, sub, role);
    BatchOfDirtSays(m, w.device, b);
    PushIsFine(m, team, w.server, b, sub, role);
    var ack := AckOf(w.server, b, sub, role);
    var flight := Flight(w.device, b, ack);
    forall k | k in flight ensures FineOutcome(m, flight[k].outcome) {
      assert AckFor(ack, k) == Some(flight[k].outcome);
      assert flight[k].outcome in ack.snippets + ack.groups;
    }
  }

  lemma FetchAgrees(m: Meaning, team: string, w: World, limit: nat)
    requires Inv(team, w) && Agreed(m, w)
    ensures Agreed(m, Step(team, w, Fetch(limit)))
  {
    if Idle(w) && w.server.counter < TWO_TO_63 {
      var n := Clamp(Some(limit));
      var page := Serve(w.viewer, StoredPage(w.server, w.device.cursor, n));
      FetchStep(team, w, limit, page);
      StoreIsSound(team, w);
      var inbox := Inbox(page);
      forall i | 0 <= i < |inbox| ensures Fine(m, inbox[i]) {
        assert inbox[i] in inbox;
        var row := PageComesFromRow(w.viewer, w.server, w.device.cursor, n, inbox[i]);
      }
    }
  }

  lemma ReceiveAgrees(m: Meaning, team: string, w: World, k: Key)
    requires Agreed(m, w)
    ensures Agreed(m, Step(team, w, Receive(k)))
  {
    if k in w.flight {
      ReceiveStep(team, w, k);
      if w.flight[k].outcome.Superseded? {
        AppliedSays(m, w.device, w.flight[k].outcome.server);
      }
    }
  }

  lemma EditAgrees(m: Meaning, team: string, w: World, rec: Record)
    requires Agreed(m, w) && Says(m, Edited(w.device, rec).rows[rec.Key()])
    ensures Agreed(m, Step(team, w, Edit(rec)))
  {
  }

  lemma StepAgrees(m: Meaning, team: string, w: World, e: Event)
    requires Inv(team, w) && Agreed(m, w) && Obeys(m, w, e)
    ensures Agreed(m, Step(team, w, e))
  {
    match e
    case Others(b, sub, role) =>
      if ValidBatch(team, b) {
        PushIsFine(m, team, w.server, b, sub, role);
      }
    case Edit(rec) => EditAgrees(m, team, w, rec);
    case Fetch(limit) => FetchAgrees(m, team, w, limit);
    case ApplyNext =>
      if w.inbox != [] {
        ApplyStep(team, w);
        AppliedSays(m, w.device, w.inbox[0]);
      }
    case Send(b, sub, role) =>
      if Idle(w) && Dirt(w.device, b) && Taken(team, w.closed, role, b) {
        SendAgrees(m, team, w, b, sub, role);
      }
    case Receive(k) => ReceiveAgrees(m, team, w, k);
    case _ =>
  }

  ghost predicate ObeyedRun(m: Meaning, team: string, w: World, events: seq<Event>) {
    events == [] ||
    var pre := events[..|events| - 1];
    ObeyedRun(m, team, w, pre) && Obeys(m, Run(team, w, pre), events[|events| - 1])
  }

  lemma {:induction false} RunAgrees(m: Meaning, team: string, w: World, events: seq<Event>)
    requires Start(team, w) && ObeyedRun(m, team, w, events)
    requires forall row :: row in w.server.log ==> Says(m, row.rec)
    ensures Agreed(m, Run(team, w, events))
  {
    if events == [] {
      forall row | row in w.server.log ensures Fine(m, row.rec) {
        assert Vetted(team, row.rec);
      }
    } else {
      var pre := events[..|events| - 1];
      RunAgrees(m, team, w, pre);
      Reachable(team, w, pre);
      StepAgrees(m, team, Run(team, w, pre), events[|events| - 1]);
    }
  }

  /**
   Where one stamp of a record means one body, groups that are never deleted included, two devices that are up to date with one server hold the
   same body of every record that neither cursor passed while it was hidden, and it is the server's.
   */
  lemma ContentsConverge(m: Meaning, team: string, w: World, events: seq<Event>, v: World, others: seq<Event>, k: Key)
    requires Start(team, w) && ObeyedRun(m, team, w, events) && forall row :: row in w.server.log ==> Says(m, row.rec)
    requires Start(team, v) && ObeyedRun(m, team, v, others) && forall row :: row in v.server.log ==> Says(m, row.rec)
    requires var s, t := Run(team, w, events), Run(team, v, others);
      UpToDate(s) && UpToDate(t) && s.server == t.server && Find(s.server.log, k).Some?
      && Find(s.server.log, k).value !in s.unseen + t.unseen
    ensures var s, t := Run(team, w, events), Run(team, v, others);
      k in s.device.rows && k in t.device.rows
      && Body(m, s.device.rows[k]) == Body(m, t.device.rows[k]) == Body(m, Find(s.server.log, k).value.rec)
  {
    var s, t := Run(team, w, events), Run(team, v, others);
    RunAgrees(m, team, w, events);
    RunAgrees(m, team, v, others);
    Reachable(team, w, events);
    Reachable(team, v, others);
    FindSound(s.server.log, k);
    PullsMissNothing(team, w, events, k);
    PullsMissNothing(team, v, others, k);
    assert s.device.rows[k].Key() == k && t.device.rows[k].Key() == k;
  }
}
