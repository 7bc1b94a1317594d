/**
 What a caller gets out of a team's log and may put into it, told from the tables: which records a pull
 shows, which batches a push takes, and what becomes of each record of a batch.
 */
module Sharing {
  import opened Wrappers
  import opened Roles
  import opened State
  import opened Auth
  import opened Access
  import opened Api
  import opened Storage
  import opened Standing
  import opened Rules
  import Acknowledging
  import Authorship
  import Devices
  import Feed
  import Paging
  import Pushing
  import Replica
  import Text

  // ---- what a pull shows -------------------------------------------------------------------------------

  /** Restricted groups are for managers and above, and for holders of a grant of either level. */
  ghost predicate MayRead(db: Db, team: string, sub: string, r: Role, group: string) {
    GroupFlag(team, group) !in db.restricted || r in LEADERS || Acl(team, group, sub) in db.grants
  }

  ghost predicate MayReadSnippet(db: Db, team: string, sub: string, r: Role, s: SnippetRec) {
    s.groupId == None || MayRead(db, team, sub, r, s.groupId.value)
  }

  lemma ViewerSees(db: Db, team: string, sub: string, r: Role, group: string)
    ensures ViewerOf(db, team, sub, r).SeesGroup(group) <==> MayRead(db, team, sub, r, group)
    ensures group in ViewerOf(db, team, sub, r).restricted <==> GroupFlag(team, group) in db.restricted
  {
    var v := ViewerOf(db, team, sub, r);
    assert group in v.restricted <==> GroupFlag(team, group) in db.restricted by {
      if GroupFlag(team, group) in db.restricted {
        assert GroupFlag(team, group).group in v.restricted;
      }
    }
    assert group in v.granted <==> Acl(team, group, sub) in db.grants by {
      if Acl(team, group, sub) in db.grants {
        assert Acl(team, group, sub).group in v.granted;
      }
    }
  }

  lemma {:induction false} VisibleMembers(v: Feed.Viewer, xs: seq<SnippetRec>, s: SnippetRec)
    ensures s in Feed.VisibleSnippets(v, xs) <==> s in xs && v.Sees(Snip(s))
  {
    if xs == [] {
    } else {
      var n := |xs| - 1;
      VisibleMembers(v, xs[..n], s);
      assert xs == xs[..n] + [xs[n]];
    }
  }

  lemma {:induction false} VisibleGroupMembers(v: Feed.Viewer, xs: seq<GroupRec>, g: GroupRec)
    ensures g in Feed.VisibleGroups(v, xs) <==>
      exists h :: h in xs && v.SeesGroup(h.id) && g == h.(restricted := h.id in v.restricted)
  {
    if xs == [] {
    } else {
      var n := |xs| - 1;
      VisibleGroupMembers(v, xs[..n], g);
      assert xs == xs[..n] + [xs[n]];
    }
  }

  /** How many records a page may hold: what was asked for, within 1 to 1000, and 200 unasked. */
  ghost predicate PageSize(limit: Option<nat>, n: nat) {
    match limit
    case None => n == 200
    case Some(k) => if k == 0 then n == 1 else if k > 1000 then n == 1000 else n == k
  }

  ghost predicate SnippetShown(db: Db, team: string, sub: string, r: Role, stored: Feed.Page, s: SnippetRec) {
    s in stored.snippets && MayReadSnippet(db, team, sub, r, s)
  }

  /** A readable group goes out under the flag the table gives it. */
  ghost predicate GroupShown(db: Db, team: string, sub: string, r: Role, stored: Feed.Page, g: GroupRec) {
    exists h :: h in stored.groups && MayRead(db, team, sub, r, h.id) && g == h.(restricted := GroupFlag(team, h.id) in db.restricted)
  }

  lemma ServedSnippets(db: Db, team: string, sub: string, r: Role, stored: Feed.Page, s: SnippetRec)
    ensures s in Feed.Serve(ViewerOf(db, team, sub, r), stored).snippets <==> SnippetShown(db, team, sub, r, stored, s)
  {
    VisibleMembers(ViewerOf(db, team, sub, r), stored.snippets, s);
    if s.groupId.Some? {
      ViewerSees(db, team, sub, r, s.groupId.value);
    }
  }

  lemma ServedGroups(db: Db, team: string, sub: string, r: Role, stored: Feed.Page, g: GroupRec)
    requires forall h :: h in stored.groups ==> !h.restricted
    ensures g in Feed.Serve(ViewerOf(db, team, sub, r), stored).groups <==> GroupShown(db, team, sub, r, stored, g)
  {
    var v := ViewerOf(db, team, sub, r);
    VisibleGroupMembers(v, stored.groups, g);
    forall h: GroupRec
      ensures v.SeesGroup(h.id) <==> MayRead(db, team, sub, r, h.id)
      ensures h.id in v.restricted <==> GroupFlag(team, h.id) in db.restricted
    {
      ViewerSees(db, team, sub, r, h.id);
    }
    if v.restricted == {} {
      assert forall h :: h in stored.groups ==> h == h.(restricted := h.id in v.restricted);
    }
  }

  lemma PullAnswers(cfg: Config, db: Db, req: Request, id: Identity, was: Db, r: Role, n: nat)
    requires req.op.Pull? && Asks(cfg, db, req, req.op.team, id, was, r) && !Archived(was, req.op.team) && PageSize(req.op.limit, n)
    ensures var v, stored := ViewerOf(was, req.op.team, id.sub, r), Feed.StoredPage(StoreOf(was, req.op.team), req.op.since, n);
      Next(cfg, db, req) == Step(was, Ok(Served(Feed.Serve(v, stored))))
  {
    LetIn(cfg, db, req, id, was, r);
  }

  /**
   Exactly what one pull shows: the snippets of the stored page that belong to no group or to one the caller
   may read, and the groups the caller may read, flagged if they are restricted.
   */
  lemma PullsShowIff(cfg: Config, db: Db, req: Request, id: Identity, was: Db, r: Role, n: nat, s: SnippetRec, g: GroupRec)
    requires req.op.Pull? && Asks(cfg, db, req, req.op.team, id, was, r) && !Archived(was, req.op.team)
    requires PageSize(req.op.limit, n) && Authorship.SoundStores(db)
    ensures var step, team := Next(cfg, db, req), req.op.team;
      var stored := Feed.StoredPage(StoreOf(was, team), req.op.since, n);
      && step.db == was && step.out.Ok? && step.out.value.Served?
      && var page := step.out.value.page;
      && page.nextCursor == stored.nextCursor && page.more == stored.more
      && (s in page.snippets <==> SnippetShown(was, team, id.sub, r, stored, s))
      && (g in page.groups <==> GroupShown(was, team, id.sub, r, stored, g))
  {
    var team := req.op.team;
    var stored := Feed.StoredPage(StoreOf(was, team), req.op.since, n);
    PullAnswers(cfg, db, req, id, was, r, n);
    StoredUnflagged(was, team, req.op.since, n);
    ServedSnippets(was, team, id.sub, r, stored, s);
    ServedGroups(was, team, id.sub, r, stored, g);
  }

  lemma StoredUnflagged(db: Db, team: string, since: nat, n: nat)
    requires Authorship.SoundStores(db)
    ensures forall g :: g in Feed.StoredPage(StoreOf(db, team), since, n).groups ==> !g.restricted
  {
    var st := StoreOf(db, team);
    assert Pushing.AllVetted(team, st);
    Authorship.VettedIsUnflagged(team, st);
    Feed.PageUnflagged(st.log, Feed.AsI64(since), n);
    var got := Feed.FirstRows(Feed.After(st.log, Feed.AsI64(since)), n);
    GroupsUnflagged(Feed.Records(got));
  }

  lemma {:induction false} GroupsUnflagged(recs: seq<Record>)
    requires forall i :: 0 <= i < |recs| && recs[i].Grp? ==> !recs[i].g.restricted
    ensures forall g :: g in Feed.Groups(recs) ==> !g.restricted
  {
    if recs == [] {
    } else {
      GroupsUnflagged(recs[..|recs| - 1]);
    }
  }

  /**
   Over every history, walking the pages from the start shows a caller exactly the stored snippets that it may
   read at that moment.
   */
  lemma WalkShowsIff(
    cfg: Config, db: Db, reqs: seq<Request>, team: string, sub: string, r: Role, limit: nat, s: SnippetRec)
    requires Authorship.SoundStores(db) && limit >= 1
    requires StoreOf(Run(cfg, db, reqs), team).counter < Feed.TWO_TO_63
    ensures var now := Run(cfg, db, reqs);
      && Feed.Sound(StoreOf(now, team))
      && (s in Feed.Walk(ViewerOf(now, team, sub, r), StoreOf(now, team), 0, limit).snippets <==>
            Authorship.Snippet(now, team, s.id) == Some(s) && MayReadSnippet(now, team, sub, r, s))
  {
    Authorship.SoundStoresInRun(cfg, db, reqs);
    var now := Run(cfg, db, reqs);
    var st, v := StoreOf(now, team), ViewerOf(now, team, sub, r);
    assert Valid(st) && Pushing.AllVetted(team, st);
    Authorship.VettedIsUnflagged(team, st);
    Feed.FullWalk(v, st, limit);
    Paging.PartsMembers(Feed.Shown(v, st.log));
    Paging.ShownMembers(v, st.log, Snip(s));
    if s.groupId.Some? {
      ViewerSees(now, team, sub, r, s.groupId.value);
    }
    HeldIsInLog(st, s);
  }

  lemma HeldIsInLog(st: TeamStore, s: SnippetRec)
    requires Valid(st)
    ensures Pushing.Held(st, s.id) == Some(s) <==> exists i :: 0 <= i < |st.log| && st.log[i].rec == Snip(s)
  {
    FindSound(st.log, SnipKey(s.id));
    if i :| 0 <= i < |st.log| && st.log[i].rec == Snip(s) {
      Paging.FindRow(st.log, i);
    }
  }

  /**
   No history in which no leader of the team acts shows anybody below manager a snippet of a restricted group
   without a grant for it.
   */
  lemma ClosedGroupsStayUnread(cfg: Config, db: Db, reqs: seq<Request>, req: Request, group: string, s: SnippetRec)
    requires Authorship.SoundStores(db) && req.op.Pull? && s.groupId == Some(group)
    requires forall i :: 0 <= i < |reqs| ==> !ByLeader(cfg, Run(cfg, db, reqs[..i]), reqs[i], req.op.team)
    requires !ByLeader(cfg, Run(cfg, db, reqs), req, req.op.team)
    requires GroupFlag(req.op.team, group) in db.restricted
    requires forall id :: Authenticate(cfg, Run(cfg, db, reqs), req.sha, req.oidc, req.now) == Ok(id) ==>
      Acl(req.op.team, group, id.sub) !in db.grants
    ensures match Next(cfg, Run(cfg, db, reqs), req).out
      case Ok(Served(page)) => s !in page.snippets
      case _ => true
  {
    var now, team := Run(cfg, db, reqs), req.op.team;
    var who := Authenticate(cfg, now, req.sha, req.oidc, req.now);
    if who.Ok? {
      var id := who.value;
      ClosedStaysClosed(cfg, db, reqs, team, group, id.sub);
      Authorship.SoundStoresInRun(cfg, db, reqs);
      GateDecides(cfg, now, team, id, Reader, now, Reader);
      if !Stranger(now, team, id) {
        var was, r := OneStanding(cfg, now, team, id);
        assert Asks(cfg, now, req, team, id, was, r);
        ReadingIsForAll(cfg, now, req, id, was, r);
        if !Archived(was, team) {
          var n := Feed.Clamp(req.op.limit);
          PullAnswers(cfg, now, req, id, was, r, n);
          ServedSnippets(was, team, id.sub, r, Feed.StoredPage(StoreOf(was, team), req.op.since, n), s);
        }
      } else {
        StrangersAreRefused(cfg, now, req, id);
      }
    }
  }

  // ---- what a push takes -------------------------------------------------------------------------------

  ghost predicate ProperText(s: string) {
    1 <= Text.Utf8Len(s) <= 512
  }

  /** The names and stamps fit, the body has at most a mebibyte, and nothing in it would be run. */
  ghost predicate ProperSnippet(team: string, s: SnippetRec) {
    && s.team == team && (forall t :: t in [s.id, s.trigger, s.format, s.kind, s.updatedAt] ==> ProperText(t))
    && Text.Utf8Len(s.replacement) <= 1_048_576 && s.kind != "command"
    && (s.variables.Some? ==>
          s.variables.value.size <= 16_384 && forall t :: t in s.variables.value.types ==> t != "shell" && t != "script")
  }

  ghost predicate ProperGroup(team: string, g: GroupRec) {
    g.team == team && forall t :: t in [g.id, g.name, g.updatedAt] ==> ProperText(t)
  }

  ghost predicate ProperBatch(team: string, b: Pushing.Batch) {
    && 0 < |b.snippets| + |b.groups| < 501
    && (forall s :: s in b.snippets ==> ProperSnippet(team, s))
    && forall g :: g in b.groups ==> ProperGroup(team, g)
  }

  lemma ProperSnippetIsValid(team: string, s: SnippetRec)
    ensures Pushing.ValidSnippet(team, s) <==> ProperSnippet(team, s)
  {
    var texts := [s.id, s.trigger, s.format, s.kind, s.updatedAt];
    assert texts[0] in texts && texts[1] in texts && texts[2] in texts && texts[3] in texts && texts[4] in texts;
  }

  lemma ProperBatchIsValid(team: string, b: Pushing.Batch)
    ensures Pushing.ValidBatch(team, b) <==> ProperBatch(team, b)
  {
    forall s | s in b.snippets ensures Pushing.ValidSnippet(team, s) <==> ProperSnippet(team, s) {
      ProperSnippetIsValid(team, s);
    }
    forall g | g in b.groups ensures Pushing.ValidGroup(team, g) <==> ProperGroup(team, g) {
      var texts := [g.id, g.name, g.updatedAt];
      assert texts[0] in texts && texts[1] in texts && texts[2] in texts;
    }
  }

  /** Restricted groups take records from managers and above, and from holders of a grant to write. */
  ghost predicate MayWrite(db: Db, team: string, sub: string, r: Role, group: string) {
    || GroupFlag(team, group) !in db.restricted || r in LEADERS
    || (Acl(team, group, sub) in db.grants && db.grants[Acl(team, group, sub)] == "write")
  }

  ghost predicate MayWriteAll(db: Db, team: string, sub: string, r: Role, b: Pushing.Batch) {
    && (forall s :: s in b.snippets && s.groupId.Some? ==> MayWrite(db, team, sub, r, s.groupId.value))
    && forall g :: g in b.groups ==> MayWrite(db, team, sub, r, g.id)
  }

  lemma BlockedIsClosed(db: Db, team: string, sub: string, r: Role, b: Pushing.Batch)
    ensures Blocked(db, team, sub, r, b) <==> !MayWriteAll(db, team, sub, r, b)
  {
  }

  lemma BatchAnswer(db: Db, id: Identity, r: Role, team: string, b: Pushing.Batch)
    ensures var step := PushBody(db, id, r, team, b);
      if Archived(db, team) then step == Step(db, Err(ArchivedTeam))
      else if !ProperBatch(team, b) then step == Step(db, Err(Validation))
      else if !MayWriteAll(db, team, id.sub, r, b) then step == Step(db, Err(Denied))
      else
        && step.out == Ok(Acknowledged(Pushing.AckOf(StoreOf(db, team), b, id.sub, r)))
        && step.db == db.(stores := db.stores[team := Pushing.Merged(StoreOf(db, team), b, id.sub, r)])
  {
    ProperBatchIsValid(team, b);
    BlockedIsClosed(db, team, id.sub, r, b);
  }

  /**
   Exactly which batches are taken: from writers and above, for a team that is not archived, proper in every
   record, and with each of its groups open to the pusher. The others are refused whole.
   */
  lemma PushesAreTakenIff(cfg: Config, db: Db, req: Request, id: Identity, was: Db, r: Role)
    requires req.op.Push? && Asks(cfg, db, req, req.op.team, id, was, r)
    ensures var step, team, b := Next(cfg, db, req), req.op.team, req.op.batch;
      if r == Reader then step == Step(was, Err(Forbidden))
      else if Archived(was, team) then step == Step(was, Err(ArchivedTeam))
      else if !ProperBatch(team, b) then step == Step(was, Err(Validation))
      else if !MayWriteAll(was, team, id.sub, r, b) then step == Step(was, Err(Denied))
      else
        && step.out == Ok(Acknowledged(Pushing.AckOf(StoreOf(was, team), b, id.sub, r)))
        && step.db == was.(stores := was.stores[team := Pushing.Merged(StoreOf(was, team), b, id.sub, r)])
  {
    LetIn(cfg, db, req, id, was, r);
    BatchAnswer(was, id, r, req.op.team, req.op.batch);
  }

  // ---- what becomes of each record ---------------------------------------------------------------------

  ghost predicate NewerStamp(at: string, version: int, thanAt: string, thanVersion: int) {
    Text.Less(thanAt, at) || (at == thanAt && version > thanVersion)
  }

  lemma {:induction false} EditableIsKept(st: TeamStore, xs: seq<SnippetRec>, sub: string, r: Role, s: SnippetRec)
    requires s in xs && Pushing.MayEdit(st, s.id, sub, r)
    ensures Pushing.Stamp(st, s, sub) in Pushing.Kept(st, xs, sub, r)
  {
    var n := |xs| - 1;
    if s in xs[..n] {
      EditableIsKept(st, xs[..n], sub, r, s);
    } else {
      assert xs == xs[..n] + [xs[n]];
    }
  }

  lemma EditableArrives(st: TeamStore, b: Pushing.Batch, sub: string, r: Role, s: SnippetRec) returns (i: nat)
    requires s in b.snippets && Pushing.MayEdit(st, s.id, sub, r)
    ensures i < |Pushing.Arrivals(st, b, sub, r)| && Pushing.Arrivals(st, b, sub, r)[i] == Snip(Pushing.Stamp(st, s, sub))
  {
    var kept, recs := Pushing.Kept(st, b.snippets, sub, r), Pushing.Arrivals(st, b, sub, r);
    EditableIsKept(st, b.snippets, sub, r, s);
    var k :| 0 <= k < |kept| && kept[k] == Pushing.Stamp(st, s, sub);
    i := |b.groups| + k;
    assert recs[|b.groups| + k] == Snip(kept[k]);
  }

  lemma EditableIsMergedAlone(st: TeamStore, b: Pushing.Batch, sub: string, r: Role, s: SnippetRec)
    requires Acknowledging.OncePerId(b) && s in b.snippets && Pushing.MayEdit(st, s.id, sub, r)
    ensures Get(Pushing.Merged(st, b, sub, r), SnipKey(s.id)) == Get(MergeOne(st, Snip(Pushing.Stamp(st, s, sub))).0, SnipKey(s.id))
  {
    var i := EditableArrives(st, b, sub, r, s);
    Acknowledging.ArrivalsOnce(st, b, sub, r);
    Acknowledging.MergedAsAlone(st, Pushing.Arrivals(st, b, sub, r), i);
  }

  lemma RefusedIsUntouched(st: TeamStore, b: Pushing.Batch, sub: string, r: Role, s: SnippetRec)
    requires Acknowledging.OncePerId(b) && s in b.snippets && !Pushing.MayEdit(st, s.id, sub, r)
    ensures Get(Pushing.Merged(st, b, sub, r), SnipKey(s.id)) == Get(st, SnipKey(s.id))
  {
    var recs := Pushing.Arrivals(st, b, sub, r);
    forall i | 0 <= i < |recs| ensures recs[i].Key() != SnipKey(s.id) {
      if recs[i].Key() == SnipKey(s.id) {
        var t := Pushing.ArrivedSnippet(st, b, sub, r, recs[i]);
      }
    }
    Acknowledging.KeyUntouched(st, recs, SnipKey(s.id));
  }

  /**
   What becomes of one pushed snippet, in a batch without repeats: a new one is stored as its pusher's; a known
   one changes exactly if its author or a manager or above pushes a newer one, and stays its author's; and the
   pusher is told which of the two it was, with the server's copy if it stays.
   */
  lemma SnippetsAreTakenIff(st: TeamStore, b: Pushing.Batch, sub: string, r: Role, s: SnippetRec)
    requires Acknowledging.OncePerId(b) && s in b.snippets
    ensures var was, now := Pushing.Held(st, s.id), Pushing.Held(Pushing.Merged(st, b, sub, r), s.id);
      var told := Acknowledging.AckFor(Pushing.AckOf(st, b, sub, r), SnipKey(s.id));
      if was == None then now == Some(s.(owner := sub)) && told == Some(Accepted(s.id))
      else if (was.value.owner == sub || r in LEADERS)
              && NewerStamp(s.updatedAt, s.version, was.value.updatedAt, was.value.version)
      then now == Some(s.(owner := was.value.owner)) && told == Some(Accepted(s.id))
      else now == was && told == Some(Superseded(s.id, Snip(was.value)))
  {
    Acknowledging.AckForSnippet(st, b, sub, r, s);
    var stamped := Snip(Pushing.Stamp(st, s, sub));
    FindSound(st.log, SnipKey(s.id));
    if Pushing.MayEdit(st, s.id, sub, r) {
      EditableIsMergedAlone(st, b, sub, r, s);
      Acknowledging.FindAfterMergeOne(st, stamped, SnipKey(s.id));
    } else {
      RefusedIsUntouched(st, b, sub, r, s);
    }
  }

  /** A pushed group is nobody's: it is taken if and only if it is new or newer, without the flag. */
  lemma GroupsAreTakenIff(st: TeamStore, b: Pushing.Batch, sub: string, r: Role, g: GroupRec)
    requires Acknowledging.OncePerId(b) && g in b.groups
    ensures var was, now := Get(st, GrpKey(g.id)), Get(Pushing.Merged(st, b, sub, r), GrpKey(g.id));
      var told := Acknowledging.AckFor(Pushing.AckOf(st, b, sub, r), GrpKey(g.id));
      if was == None || NewerStamp(g.updatedAt, g.version, was.value.UpdatedAt(), was.value.Version())
      then now == Some(Grp(g.(restricted := false))) && told == Some(Accepted(g.id))
      else now == was && told == Some(Superseded(g.id, was.value))
  {
    var recs := Pushing.Arrivals(st, b, sub, r);
    var i :| 0 <= i < |b.groups| && b.groups[i] == g;
    Acknowledging.AckForGroup(st, b, sub, r, g);
    Acknowledging.ArrivalsOnce(st, b, sub, r);
    assert recs[i] == Grp(Pushing.Stripped(b.groups)[i]) == Grp(g.(restricted := false));
    Acknowledging.MergedAsAlone(st, recs, i);
    Acknowledging.FindAfterMergeOne(st, recs[i], GrpKey(g.id));
  }

  // ---- the counter ------------------------------------------------------------------------------------------

  function AcceptedIn(outs: seq<PushOutcome>): nat {
    if outs == [] then 0 else AcceptedIn(outs[..|outs| - 1]) + (if outs[|outs| - 1].Accepted? then 1 else 0)
  }

  lemma {:induction false} CounterCountsAccepted(st: TeamStore, recs: seq<Record>)
    ensures MergeAll(st, recs).0.counter == st.counter + AcceptedIn(MergeAll(st, recs).1)
  {
    if recs == [] {
    } else {
      var n := |recs| - 1;
      CounterCountsAccepted(st, recs[..n]);
      var (before, outs) := MergeAll(st, recs[..n]);
      var out := MergeOne(before, recs[n]).1;
      assert (outs + [out])[..|outs|] == outs;
    }
  }

  lemma {:induction false} AcceptedInBoth(a: seq<PushOutcome>, b: seq<PushOutcome>)
    ensures AcceptedIn(a + b) == AcceptedIn(a) + AcceptedIn(b)
  {
    if b == [] {
      assert a + b == a;
    } else {
      assert (a + b)[..|a + b| - 1] == a + b[..|b| - 1];
      AcceptedInBoth(a, b[..|b| - 1]);
    }
  }

  lemma AcceptedAtCut(outs: seq<PushOutcome>, n: nat)
    requires n <= |outs|
    ensures AcceptedIn(outs) == AcceptedIn(outs[..n]) + AcceptedIn(outs[n..])
  {
    AcceptedInBoth(outs[..n], outs[n..]);
    assert outs[..n] + outs[n..] == outs;
  }

  lemma {:induction false} RefusedAreNotAccepted(st: TeamStore, xs: seq<SnippetRec>, sub: string, r: Role)
    ensures AcceptedIn(Pushing.Rejected(st, xs, sub, r)) == 0
  {
    if xs == [] {
    } else {
      RefusedAreNotAccepted(st, xs[..|xs| - 1], sub, r);
    }
  }

  /** The cursor the pusher is told is the old one plus one for each record its answer calls accepted. */
  lemma AckCursorCounts(st: TeamStore, b: Pushing.Batch, sub: string, r: Role)
    ensures var ack := Pushing.AckOf(st, b, sub, r);
      && ack.cursor == st.counter + AcceptedIn(ack.snippets) + AcceptedIn(ack.groups)
      && ack.cursor == Pushing.Merged(st, b, sub, r).counter
  {
    var recs, n := Pushing.Arrivals(st, b, sub, r), |b.groups|;
    var outs := MergeAll(st, recs).1;
    Pushing.MergeAcksInOrder(st, recs);
    CounterCountsAccepted(st, recs);
    RefusedAreNotAccepted(st, b.snippets, sub, r);
    AcceptedInBoth(outs[n..], Pushing.Rejected(st, b.snippets, sub, r));
    AcceptedAtCut(outs, n);
  }

  /** So a team that nobody pushed to yet is told how many of its records were taken. */
  lemma FirstCursorCounts(db: Db, team: string, b: Pushing.Batch, sub: string, r: Role)
    requires team !in db.stores
    ensures var ack := Pushing.AckOf(StoreOf(db, team), b, sub, r);
      ack.cursor == AcceptedIn(ack.snippets) + AcceptedIn(ack.groups)
  {
    AckCursorCounts(StoreOf(db, team), b, sub, r);
  }

  // ---- the device's side of it --------------------------------------------------------------------------------

  /** The groups a writer finds closed: restricted, and no grant to write. */
  ghost function ClosedTo(db: Db, team: string, sub: string): set<string> {
    set f | f in db.restricted && f.team == team
      && !(Acl(team, f.group, sub) in db.grants && db.grants[Acl(team, f.group, sub)] == "write") :: f.group
  }

  lemma ClosedIsShut(db: Db, team: string, sub: string, r: Role, b: Pushing.Batch)
    ensures Replica.Shut(ClosedTo(db, team, sub), r, b) <==> !MayWriteAll(db, team, sub, r, b)
  {
    forall group ensures group in ClosedTo(db, team, sub) || r in LEADERS <==> r in LEADERS || !MayWrite(db, team, sub, r, group) {
      if GroupFlag(team, group) in db.restricted {
        assert GroupFlag(team, group).group == group;
      }
    }
  }

  /** A device in front of this server: same records, same view of them, same closed groups. */
  ghost predicate Faces(w: Replica.World, db: Db, team: string, sub: string, r: Role) {
    w.server == StoreOf(db, team) && w.viewer == ViewerOf(db, team, sub, r) && w.closed == ClosedTo(db, team, sub)
  }

  lemma TakenIsOpen(db: Db, team: string, sub: string, r: Role, b: Pushing.Batch)
    ensures Replica.Taken(team, ClosedTo(db, team, sub), r, b) <==> ProperBatch(team, b) && MayWriteAll(db, team, sub, r, b)
  {
    ProperBatchIsValid(team, b);
    ClosedIsShut(db, team, sub, r, b);
  }

  lemma SendStep(team: string, w: Replica.World, b: Pushing.Batch, sub: string, r: Role)
    requires Replica.Idle(w) && Devices.Dirt(w.device, b)
    ensures Replica.Step(team, w, Replica.Send(b, sub, r)) ==
      if Replica.Taken(team, w.closed, r, b)
      then w.(server := Pushing.Merged(w.server, b, sub, r), flight := Replica.Flight(w.device, b, Pushing.AckOf(w.server, b, sub, r)))
      else w
  {
  }

  /** What the protocol's send does to the server's records is what the push request does to them. */
  lemma SendIsAPush(cfg: Config, db: Db, req: Request, id: Identity, was: Db, r: Role, w: Replica.World)
    requires req.op.Push? && Asks(cfg, db, req, req.op.team, id, was, r) && !Archived(was, req.op.team) && r != Reader
    requires Faces(w, was, req.op.team, id.sub, r) && Replica.Idle(w) && Devices.Dirt(w.device, req.op.batch)
    ensures var t := Replica.Step(req.op.team, w, Replica.Send(req.op.batch, id.sub, r));
      && t.server == StoreOf(Next(cfg, db, req).db, req.op.team)
      && (Next(cfg, db, req).out.Ok? <==> Replica.Taken(req.op.team, w.closed, r, req.op.batch))
      && (Next(cfg, db, req).out.Ok? ==>
            t.flight == Replica.Flight(w.device, req.op.batch, Next(cfg, db, req).out.value.ack))
  {
    PushesAreTakenIff(cfg, db, req, id, was, r);
    TakenIsOpen(was, req.op.team, id.sub, r, req.op.batch);
    SendStep(req.op.team, w, req.op.batch, id.sub, r);
  }

  /** Every push of somebody else's that the server takes is an event of the protocol. */
  lemma OthersArePushes(cfg: Config, db: Db, req: Request, id: Identity, was: Db, r: Role, w: Replica.World)
    requires req.op.Push? && Asks(cfg, db, req, req.op.team, id, was, r) && Next(cfg, db, req).out.Ok?
    requires w.server == StoreOf(was, req.op.team)
    ensures Replica.Step(req.op.team, w, Replica.Others(req.op.batch, id.sub, r)) ==
      w.(server := StoreOf(Next(cfg, db, req).db, req.op.team))
  {
    PushesAreTakenIff(cfg, db, req, id, was, r);
    ProperBatchIsValid(req.op.team, req.op.batch);
  }

  /** And what its fetch brings is what the pull request answers. */
  lemma FetchIsAPull(cfg: Config, db: Db, req: Request, id: Identity, was: Db, r: Role, w: Replica.World)
    requires req.op.Pull? && Asks(cfg, db, req, req.op.team, id, was, r) && !Archived(was, req.op.team)
    requires Faces(w, was, req.op.team, id.sub, r) && Replica.Idle(w) && w.server.counter < Feed.TWO_TO_63
    requires req.op.since == w.device.cursor && req.op.limit.Some?
    ensures var t, out := Replica.Step(req.op.team, w, Replica.Fetch(req.op.limit.value)), Next(cfg, db, req).out;
      out.Ok? && out.value.Served? && t.inbox == Paging.Inbox(out.value.page) && t.target == out.value.page.nextCursor
  {
    PullAnswers(cfg, db, req, id, was, r, Feed.Clamp(req.op.limit));
  }
}
