/** Records over whole histories: who wrote them, who may change them, what can be in them, who sees them. */
module Authorship {
  import opened Wrappers
  import opened Roles
  import opened State
  import opened Auth
  import opened Access
  import opened Api
  import Storage
  import Pushing
  import Feed
  import Ownership

  function Snippet(db: Db, team: string, id: string): Option<Storage.SnippetRec> {
    Pushing.Held(StoreOf(db, team), id)
  }

  /** The request is a push into `team` by `sub`, let through as `role`. */
  ghost predicate PushBy(cfg: Config, db: Db, req: Request, team: string, sub: string, role: Role) {
    var who := Authenticate(cfg, db, req.sha, req.oidc, req.now);
    && req.op.Push? && req.op.team == team && who.Ok? && who.value.sub == sub
    && GateOf(cfg, db, who.value, req.op).role == Ok(role)
    && Pushing.ValidBatch(team, req.op.batch)
  }

  /** The records of a team move only in an accepted push, and then by its merge. */
  lemma RecordsMoveByPush(cfg: Config, db: Db, req: Request, team: string) returns (sub: string, role: Role)
    ensures StoreOf(Next(cfg, db, req).db, team) != StoreOf(db, team) ==>
      && PushBy(cfg, db, req, team, sub, role)
      && StoreOf(Next(cfg, db, req).db, team) == Pushing.Merged(StoreOf(db, team), req.op.batch, sub, role)
  {
    sub, role := "", Reader;
    var who := Authenticate(cfg, db, req.sha, req.oidc, req.now);
    if who.Ok? {
      if Gated(req.op) {
        GateFrame(cfg, db, who.value, req.op);
        var gate := GateOf(cfg, db, who.value, req.op);
        sub := who.value.sub;
        if gate.role.Ok? {
          role := gate.role.value;
          BodyFrame(gate.db, who.value, role, req.now, req.op);
          assert StoreOf(gate.db, team) == StoreOf(db, team);
        }
      } else {
        UngatedFrame(cfg, db, who.value, req.now, req.op);
      }
    }
  }

  /**
   One request and one snippet: the author never changes, the body changes only in a push by the
   author or a manager and only to a newer body out of the batch, and a new snippet is its
   pusher's.
   */
  lemma SnippetStep(cfg: Config, db: Db, req: Request, team: string, id: string) returns (sub: string, role: Role)
    ensures var was, now := Snippet(db, team, id), Snippet(Next(cfg, db, req).db, team, id);
      && (was.Some? ==> now.Some? && now.value.owner == was.value.owner)
      && (now != was ==>
            && PushBy(cfg, db, req, team, sub, role)
            && (exists s :: s in req.op.batch.snippets && s.id == id && now == Some(s.(owner := now.value.owner))))
      && (was.Some? && now != was ==>
            (was.value.owner == sub || role.AtLeast(Manager))
            && Storage.Beats(Storage.Snip(now.value), Storage.Snip(was.value)))
      && (was.None? && now.Some? ==> now.value.owner == sub)
  {
    sub, role := RecordsMoveByPush(cfg, db, req, team);
    if StoreOf(Next(cfg, db, req).db, team) != StoreOf(db, team) {
      Pushing.PushAndOneSnippet(StoreOf(db, team), req.op.batch, sub, role, id);
    }
  }

  /** Once there, a snippet is there for good, by the same author. */
  lemma {:induction false} AuthorIsForever(cfg: Config, db: Db, reqs: seq<Request>, team: string, id: string)
    requires Snippet(db, team, id).Some?
    ensures Snippet(Run(cfg, db, reqs), team, id).Some?
    ensures Snippet(Run(cfg, db, reqs), team, id).value.owner == Snippet(db, team, id).value.owner
  {
    if reqs == [] {
    } else {
      var n := |reqs| - 1;
      AuthorIsForever(cfg, db, reqs[..n], team, id);
      var _, _ := SnippetStep(cfg, Run(cfg, db, reqs[..n]), reqs[n], team, id);
    }
  }

  lemma PrefixOfHistory(reqs: seq<Request>, n: nat, k: nat)
    requires k < n <= |reqs|
    ensures reqs[..n][..k] == reqs[..k] && reqs[..n][..k + 1] == reqs[..k + 1] && reqs[..n][k] == reqs[k]
  {
  }

  /** Over every history, the author of a snippet is whoever first pushed its id. */
  lemma {:induction false} AuthorIsFirstPusher(cfg: Config, db: Db, reqs: seq<Request>, team: string, id: string)
    returns (k: nat, sub: string, role: Role)
    requires Snippet(db, team, id).None? && Snippet(Run(cfg, db, reqs), team, id).Some?
    ensures k < |reqs| && PushBy(cfg, Run(cfg, db, reqs[..k]), reqs[k], team, sub, role)
    ensures Snippet(Run(cfg, db, reqs[..k]), team, id).None? && Snippet(Run(cfg, db, reqs[..k + 1]), team, id).Some?
    ensures Snippet(Run(cfg, db, reqs), team, id).value.owner == sub
  {
    var n := |reqs| - 1;
    var pre := reqs[..n];
    assert reqs[..n + 1] == reqs;
    if Snippet(Run(cfg, db, pre), team, id).None? {
      k := n;
      sub, role := SnippetStep(cfg, Run(cfg, db, pre), reqs[n], team, id);
    } else {
      k, sub, role := AuthorIsFirstPusher(cfg, db, pre, team, id);
      PrefixOfHistory(reqs, n, k);
      var _, _ := SnippetStep(cfg, Run(cfg, db, pre), reqs[n], team, id);
    }
  }

  // ---- what can be in the store -------------------------------------------------------------

  /** Every log is a proper table, and every record in it went through the gate of `push`. */
  ghost predicate SoundStores(db: Db) {
    forall team :: team in db.stores ==> Storage.Valid(db.stores[team]) && Pushing.AllVetted(team, db.stores[team])
  }

  lemma SoundStoresStep(cfg: Config, db: Db, req: Request)
    requires SoundStores(db)
    ensures SoundStores(Next(cfg, db, req).db)
  {
    var after := Next(cfg, db, req).db;
    forall team | team in after.stores
      ensures Storage.Valid(after.stores[team]) && Pushing.AllVetted(team, after.stores[team])
    {
      var sub, role := RecordsMoveByPush(cfg, db, req, team);
      var st := StoreOf(db, team);
      assert Storage.Valid(st) && Pushing.AllVetted(team, st);
      if StoreOf(after, team) != st {
        Pushing.PushKeepsVetted(team, st, req.op.batch, sub, role);
        Pushing.PushKeepsValid(st, req.op.batch, sub, role);
      }
    }
  }

  lemma {:induction false} SoundStoresInRun(cfg: Config, db: Db, reqs: seq<Request>)
    requires SoundStores(db)
    ensures SoundStores(Run(cfg, db, reqs))
  {
    if reqs == [] {
    } else {
      SoundStoresInRun(cfg, db, reqs[..|reqs| - 1]);
      SoundStoresStep(cfg, Run(cfg, db, reqs[..|reqs| - 1]), reqs[|reqs| - 1]);
    }
  }

  /**
   Executable content never syncs, teams do not mix, and no client sets a group's flag: no history of
   a server that started clean stores a record that breaks one of these.
   */
  lemma NothingForbiddenIsStored(cfg: Config, db: Db, reqs: seq<Request>, team: string, row: Storage.Row)
    requires SoundStores(db) && row in StoreOf(Run(cfg, db, reqs), team).log
    ensures match row.rec
      case Snip(s) => s.team == team && s.kind != "command" && !Pushing.HasExecVars(s.variables)
      case Grp(g) => g.team == team && !g.restricted
  {
    SoundStoresInRun(cfg, db, reqs);
    assert Pushing.Vetted(team, row.rec);
  }

  // ---- what a caller gets to see ------------------------------------------------------------------

  lemma VettedIsUnflagged(team: string, st: Storage.TeamStore)
    requires Pushing.AllVetted(team, st)
    ensures Feed.Unflagged(st.log)
  {
    forall i | 0 <= i < |st.log| && st.log[i].rec.Grp? ensures !st.log[i].rec.g.restricted {
      assert Pushing.Vetted(team, st.log[i].rec);
    }
  }

  /**
   In every state a history can reach, a client that pulls a team page by page from cursor 0 gets
   exactly the records its caller may see, once each and in order, and every group with the flag
   the restricted set gives it.
   */
  lemma PullsShowExactlyTheVisible(cfg: Config, db: Db, reqs: seq<Request>, team: string, v: Feed.Viewer, limit: Option<nat>)
    requires SoundStores(db) && StoreOf(Run(cfg, db, reqs), team).counter < Feed.TWO_TO_63
    ensures var st := StoreOf(Run(cfg, db, reqs), team);
      && Feed.Sound(st)
      && Feed.Walk(v, st, 0, Feed.Clamp(limit)).snippets == Feed.Snippets(Feed.Shown(v, st.log))
      && Feed.Walk(v, st, 0, Feed.Clamp(limit)).groups == Feed.Groups(Feed.Shown(v, st.log))
      && forall g :: g in Feed.Walk(v, st, 0, Feed.Clamp(limit)).groups ==> (g.restricted <==> g.id in v.restricted)
  {
    SoundStoresInRun(cfg, db, reqs);
    var st := StoreOf(Run(cfg, db, reqs), team);
    assert Storage.Valid(st) && Pushing.AllVetted(team, st);
    VettedIsUnflagged(team, st);
    Feed.FullWalk(v, st, Feed.Clamp(limit));
    forall g | g in Feed.Groups(Feed.Shown(v, st.log)) ensures g.restricted <==> g.id in v.restricted {
      Feed.FlagIsMembership(v, st.log, g);
    }
  }

  lemma GateIgnoresRecords(cfg: Config, a: Db, b: Db, id: Identity, op: Op)
    requires Gated(op) && b == a.(stores := b.stores)
    ensures GateOf(cfg, b, id, op) == Gate(GateOf(cfg, a, id, op).db.(stores := b.stores), GateOf(cfg, a, id, op).role)
  {
    assert Resolve(cfg, a, op.team, id) == Resolve(cfg, b, op.team, id);
    assert Bootstraps(a, op.team, id) == Bootstraps(b, op.team, id);
  }

  /**
   Two servers that differ only in the records of one team, and there only in records the caller
   may not see, answer every pull of that team alike.
   */
  lemma HiddenRecordsNeverAnswer(cfg: Config, a: Db, b: Db, req: Request, role: Role)
    requires req.op.Pull? && b == a.(stores := b.stores)
    requires SoundStores(a) && SoundStores(b)
    requires var who := Authenticate(cfg, a, req.sha, req.oidc, req.now);
      who.Ok? && GateOf(cfg, a, who.value, req.op).role == Ok(role)
      && Feed.AlikeFor(ViewerOf(a, req.op.team, who.value.sub, role), StoreOf(a, req.op.team).log, StoreOf(b, req.op.team).log)
    ensures Next(cfg, a, req).out == Next(cfg, b, req).out
  {
    var id := Authenticate(cfg, a, req.sha, req.oidc, req.now).value;
    var team := req.op.team;
    assert Authenticate(cfg, b, req.sha, req.oidc, req.now) == Ok(id);
    GateIgnoresRecords(cfg, a, b, id, req.op);
    var ga, gb := GateOf(cfg, a, id, req.op), GateOf(cfg, b, id, req.op);
    GateFrame(cfg, a, id, req.op);
    var v := ViewerOf(a, team, id.sub, role);
    assert ViewerOf(ga.db, team, id.sub, role) == v == ViewerOf(gb.db, team, id.sub, role);
    VettedIsUnflagged(team, StoreOf(a, team));
    VettedIsUnflagged(team, StoreOf(b, team));
    Feed.HiddenRecordsDoNotShow(v, StoreOf(a, team), StoreOf(b, team), req.op.since, Feed.Clamp(req.op.limit));
  }
}
