/**
 Exactly which records a device is missing between pulls: of those its user did not touch, the ones
 that were hidden when the cursor passed them and have not been rewritten since.
 */
module Missing {
  import opened Wrappers
  import opened Roles
  import opened Storage
  import opened Pushing
  import opened Feed
  import opened Devices
  import opened Acknowledging
  import opened Paging
  import opened Replica

  /** The device holds the record with exactly this stamp. */
  ghost predicate Holds(d: Device, k: Key, rec: Record) {
    k in d.rows && SameStamp(d.rows[k], rec)
  }

  /** Nothing of `k` comes from this device. */
  ghost predicate Untouched(w: World, k: Key) {
    !w.device.Dirty(k) && k !in w.flight
  }

  /** What was left out lies before the cursor it was left out for. */
  ghost predicate LeftBehind(w: World) {
    && (forall r :: r in w.unseen ==> r.num <= w.device.cursor)
    && (forall r :: r in w.skipped ==> w.device.cursor < r.num <= w.target)
  }

  /** A row that was left out, or that no page has covered yet, is not on the device. */
  ghost predicate NotYet(w: World, k: Key) {
    var row := Find(w.server.log, k);
    row.Some? && (row.value in w.unseen + w.skipped || row.value.num > w.target) ==> !Holds(w.device, k, row.value.rec)
  }

  /** A fetched record was not left out, and a row that came later is newer. */
  ghost predicate Due(w: World, k: Key, i: nat) {
    i < |w.inbox| && w.inbox[i].Key() == k ==>
      var row := Find(w.server.log, k);
      row.Some? && row.value !in w.skipped && (row.value.num > w.target ==> Beats(row.value.rec, w.inbox[i]))
  }

  ghost predicate Tracked(w: World, k: Key) {
    Untouched(w, k) && LeftBehind(w) && NotYet(w, k) && forall i: nat :: Due(w, k, i)
  }

  /** The user leaves `k` alone, and a pull that has begun a page finishes it. */
  ghost predicate Calm(w: World, e: Event, k: Key) {
    !(e.Edit? && e.rec.Key() == k) && (e.Fail? ==> w.target == w.device.cursor)
  }

  lemma NewerIsAnother(newer: Record, held: Record, mine: Record)
    requires Beats(newer, held) && !Beats(mine, held)
    ensures !SameStamp(mine, newer) && Beats(newer, mine)
  {
    BeatsTotal(held, mine);
    if Beats(held, mine) {
      BeatsTransitive(newer, held, mine);
    }
    if SameStamp(mine, newer) {
      SameStampNeverBeats(mine, newer);
    }
  }

  /** The server moves: a row that changed is later and newer than all the device has. */
  lemma ServerKeepsTracked(team: string, w: World, after: World, k: Key)
    requires Inv(team, w) && Tracked(w, k) && Moved(w.server, after.server, k)
    requires after == w.(server := after.server, flight := after.flight) && k !in after.flight
    ensures Tracked(after, k)
  {
    var was, now := Find(w.server.log, k), Find(after.server.log, k);
    FindSound(w.server.log, k);
    assert CleanIsSafe(w, k);
    if now != was && k in w.device.rows {
      NewerIsAnother(now.value.rec, was.value.rec, w.device.rows[k]);
    }
    forall i: nat ensures Due(after, k, i) {
      assert Due(w, k, i) && Fetched(w, i);
      if i < |w.inbox| && w.inbox[i].Key() == k && now != was {
        NewerIsAnother(now.value.rec, was.value.rec, w.inbox[i]);
      }
    }
  }

  lemma MergeKeepsTracked(team: string, w: World, b: Batch, sub: string, role: Role, flight: map<Key, Sent>, k: Key)
    requires Inv(team, w) && Tracked(w, k) && k !in flight
    ensures Tracked(w.(server := Merged(w.server, b, sub, role), flight := flight), k)
  {
    MovedAll(w.server, Arrivals(w.server, b, sub, role), k);
    ServerKeepsTracked(team, w, w.(server := Merged(w.server, b, sub, role), flight := flight), k);
  }

  lemma FetchKeepsTracked(team: string, w: World, limit: nat, k: Key)
    requires Inv(team, w) && Tracked(w, k)
    ensures Tracked(Step(team, w, Fetch(limit)), k)
  {
    if Idle(w) && w.server.counter < TWO_TO_63 {
      var n := Clamp(Some(limit));
      var page := Serve(w.viewer, StoredPage(w.server, w.device.cursor, n));
      var after := Step(team, w, Fetch(limit));
      FetchStep(team, w, limit, page);
      StoreIsSound(team, w);
      forall i: nat ensures Due(after, k, i) {
        if i < |after.inbox| && after.inbox[i].Key() == k {
          assert after.inbox[i] in after.inbox;
          PageIsCurrent(w.viewer, w.server, w.device.cursor, n, after.inbox[i]);
        }
      }
    }
  }

  lemma ApplyKeepsTracked(team: string, w: World, k: Key)
    requires Inv(team, w) && Tracked(w, k) && w.inbox != []
    ensures Tracked(Step(team, w, ApplyNext), k)
  {
    var after, rec := Step(team, w, ApplyNext), w.inbox[0];
    AppliedRow(w.device, FromWire(rec), k);
    assert Fetched(w, 0) && Due(w, k, 0) && CleanIsSafe(w, k);
    if rec.Key() == k {
      var row := Find(w.server.log, k).value;
      if row.num > w.target {
        SameStampNeverBeats(row.rec, row.rec);
        assert !SameStamp(rec, row.rec) by {
          if SameStamp(rec, row.rec) {
            SameStampNeverBeats(rec, row.rec);
          }
        }
      }
    }
    forall i: nat ensures Due(after, k, i) {
      assert Due(w, k, i + 1);
    }
  }

  /** One step of the run keeps track of the key. */
  lemma StepKeepsTracked(team: string, w: World, e: Event, k: Key)
    requires Inv(team, w) && Tracked(w, k) && Calm(w, e, k)
    ensures Tracked(Step(team, w, e), k)
  {
    match e
    case Others(b, sub, role) =>
      if ValidBatch(team, b) {
        MergeKeepsTracked(team, w, b, sub, role, w.flight, k);
      }
    case Send(b, sub, role) =>
      if Idle(w) && Dirt(w.device, b) && Taken(team, w.closed, role, b) {
        SendStep(team, w, b, sub, role);
        MergeKeepsTracked(team, w, b, sub, role, Flight(w.device, b, AckOf(w.server, b, sub, role)), k);
      }
    case Fetch(limit) => FetchKeepsTracked(team, w, limit, k);
    case ApplyNext =>
      if w.inbox != [] {
        ApplyKeepsTracked(team, w, k);
      }
    case _ => QuietStepKeepsTracked(team, w, e, k);
  }

  /** Steps that neither fetch nor merge. */
  lemma QuietStepKeepsTracked(team: string, w: World, e: Event, k: Key)
    requires Inv(team, w) && Tracked(w, k) && Calm(w, e, k)
    requires e.Regrant? || e.Edit? || e.Finish? || e.Receive? || e.Fail?
    ensures Tracked(Step(team, w, e), k)
  {
    var after := Step(team, w, e);
    forall i: nat ensures Due(after, k, i) {
      assert Due(w, k, i);
    }
    match e
    case Edit(rec) => EditedRow(w.device, rec, k);
    case Receive(j) =>
      if j in w.flight {
        assert InFlight(w, j);
        if w.flight[j].outcome.Superseded? {
          AppliedRow(w.device, FromWire(w.flight[j].outcome.server), k);
        }
      }
    case _ =>
  }

  /** Every step of the run is calm as far as `k` goes. */
  ghost predicate CalmRun(team: string, w: World, events: seq<Event>, k: Key) {
    events == [] ||
    var pre := events[..|events| - 1];
    CalmRun(team, w, pre, k) && Calm(Run(team, w, pre), events[|events| - 1], k)
  }

  lemma {:induction false} TrackedInRun(team: string, w: World, events: seq<Event>, k: Key)
    requires Start(team, w) && CalmRun(team, w, events, k)
    ensures Tracked(Run(team, w, events), k)
  {
    if events == [] {
    } else {
      var pre := events[..|events| - 1];
      TrackedInRun(team, w, pre, k);
      Reachable(team, w, pre);
      StepKeepsTracked(team, Run(team, w, pre), events[|events| - 1], k);
    }
  }

  /**
   In every run in which the user leaves the record alone and begun pages are finished, between pulls: a
   row behind the cursor is on the device, with its stamp, if and only if it was not hidden from the
   user when the cursor passed it. A row that was rewritten since is another row.
   */
  lemma PulledIffNotHidden(team: string, w: World, events: seq<Event>, k: Key)
    requires Start(team, w) && CalmRun(team, w, events, k)
    requires var t := Run(team, w, events);
      Idle(t) && Find(t.server.log, k).Some? && Find(t.server.log, k).value.num <= t.device.cursor
    ensures var t := Run(team, w, events);
      Holds(t.device, k, Find(t.server.log, k).value.rec) <==> Find(t.server.log, k).value !in t.unseen
  {
    TrackedInRun(team, w, events, k);
    var t := Run(team, w, events);
    assert NotYet(t, k) && Untouched(t, k);
    if Find(t.server.log, k).value !in t.unseen {
      PullsMissNothing(team, w, events, k);
    }
  }
}
