/**
 The server as it runs: one object whose fields are the tables, and handlers that read and rewrite
 them statement by statement. Every handler is proved to do what its one-line form in `Api` says.
 */
module Server {
  import opened Wrappers
  import opened Roles
  import opened State
  import opened Api
  import Auth
  import Access
  import Storage
  import Feed
  import Pushing
  import Ownership
  import Text

  class AppState {
    const cfg: Config
    var roles: map<Seat, Role>
    var tokens: map<string, StoredToken>
    var registry: map<string, bool>
    var org: Option<OrgSettings>
    var restricted: set<GroupFlag>
    var grants: map<Acl, string>
    var stores: map<string, Storage.TeamStore>

    function View(): Db
      reads this
    {
      Db(roles, tokens, registry, org, restricted, grants, stores)
    }

    constructor (cfg: Config)
      ensures this.cfg == cfg && View() == Db(map[], map[], map[], None, {}, map[], map[])
    {
      this.cfg := cfg;
      roles, tokens, registry, org := map[], map[], map[], None;
      restricted, grants, stores := {}, map[], map[];
    }

    /** Scanning the rows for an owner asks whether the set of owners is empty. */
    static lemma OwnerScan(roles: map<Seat, Role>, team: string)
      ensures (exists seat :: seat in roles && seat.team == team && roles[seat] == Owner) <==> OwnersIn(roles, team) != {}
    {
      if seat :| seat in roles && seat.team == team && roles[seat] == Owner {
        assert seat.sub in OwnersIn(roles, team);
      }
    }

    /** In bootstrap mode, the first caller to touch a team that nobody owns gets its owner row. */
    method CrownFirst(team: string, id: Identity) returns (crowned: bool)
      modifies this`roles
      ensures crowned <==> Access.Bootstraps(old(View()), team, id)
      ensures roles == if crowned then old(roles)[Seat(team, id.sub) := Owner] else old(roles)
    {
      crowned := false;
      if Org(View()).teamCreation == "bootstrap" && team in id.teams {
        OwnerScan(roles, team);
        var hasOwner := exists seat :: seat in roles && seat.team == team && roles[seat] == Owner;
        if !hasOwner {
          roles := roles[Seat(team, id.sub) := Owner];
          crowned := true;
        }
      }
    }

    /** Resolve, crown the first toucher of an ownerless team, then compare with the minimum. */
    method EnsureAccess(team: string, id: Identity, min: Role) returns (r: Result<Role, ApiError>)
      modifies this`roles
      ensures Access.Gate(View(), r) == Access.EnsureAccess(cfg, old(View()), team, id, min)
    {
      var resolved := Access.Resolve(cfg, View(), team, id);
      if resolved.None? {
        return Err(Forbidden);
      }
      var crowned := CrownFirst(team, id);
      var role := if crowned then Owner else resolved.value;
      return if role.AtLeast(min) then Ok(role) else Err(Forbidden);
    }

    // ---- pulling ------------------------------------------------------------------------------

    /** Rows behind the cursor, sorted into snippets and groups while the cursor moves on. */
    static method ReadPage(st: Storage.TeamStore, since: nat, limit: nat) returns (page: Feed.Page)
      ensures page == Feed.StoredPage(st, since, limit)
    {
      var all := Feed.After(st.log, Feed.AsI64(since));
      var more := |all| > limit;
      if more {
        all := all[..limit];
      }
      var snippets, groups, next := [], [], since;
      for i := 0 to |all|
        invariant snippets == Feed.Snippets(Feed.Records(all[..i]))
        invariant groups == Feed.Groups(Feed.Records(all[..i]))
        invariant next == Feed.Cursor(all[..i], since)
      {
        assert all[..i + 1] == all[..i] + [all[i]];
        assert Feed.Records(all[..i + 1]) == Feed.Records(all[..i]) + [all[i].rec];
        Feed.PartsSnoc(Feed.Records(all[..i]), all[i].rec);
        assert all[..i + 1][..i] == all[..i];
        match all[i].rec {
          case Snip(s) => snippets := snippets + [s];
          case Grp(g) => groups := groups + [g];
        }
        next := if next < all[i].num then all[i].num else next;
      }
      assert all[..|all|] == all;
      page := Feed.Page(snippets, groups, next, more);
    }

    /** Drop what the caller may not see, then set the outgoing flags. */
    static method FilterPage(v: Feed.Viewer, page: Feed.Page) returns (out: Feed.Page)
      ensures out == Feed.Serve(v, page)
    {
      out := page;
      if v.restricted != {} {
        var groups := [];
        for i := 0 to |page.groups|
          invariant groups == Feed.VisibleGroups(v, page.groups[..i])
        {
          assert page.groups[..i + 1] == page.groups[..i] + [page.groups[i]];
          Feed.VisibleGroupsSnoc(v, page.groups[..i], page.groups[i]);
          var g := page.groups[i];
          if g.id !in v.restricted || v.manager || g.id in v.granted {
            groups := groups + [g.(restricted := g.id in v.restricted)];
          }
        }
        var snippets := [];
        for i := 0 to |page.snippets|
          invariant snippets == Feed.VisibleSnippets(v, page.snippets[..i])
        {
          assert page.snippets[..i + 1] == page.snippets[..i] + [page.snippets[i]];
          Feed.VisibleSnippetsSnoc(v, page.snippets[..i], page.snippets[i]);
          var s := page.snippets[i];
          if s.groupId.None? || s.groupId.value !in v.restricted || v.manager || s.groupId.value in v.granted {
            snippets := snippets + [s];
          }
        }
        assert page.groups[..|page.groups|] == page.groups && page.snippets[..|page.snippets|] == page.snippets;
        out := page.(snippets := snippets, groups := groups);
      }
    }

    method Pull(id: Identity, team: string, since: nat, limit: Option<nat>, now: string) returns (out: Result<Reply, ApiError>)
      modifies this
      ensures Step(View(), out) == Handle(cfg, old(View()), id, now, Op.Pull(team, since, limit))
    {
      var access := EnsureAccess(team, id, Reader);
      if access.Err? {
        return Err(access.error);
      }
      if IsArchived(View(), team) {
        return Err(ArchivedTeam);
      }
      var page := ReadPage(StoreOf(View(), team), since, Feed.Clamp(limit));
      page := FilterPage(ViewerOf(View(), team, id.sub, access.value), page);
      return Ok(Served(page));
    }

    // ---- pushing -------------------------------------------------------------------------------

    /** The ownership check, record by record: stamp and keep, or answer with the server's copy. */
    static method SplitBatch(st: Storage.TeamStore, xs: seq<Storage.SnippetRec>, sub: string, role: Role)
      returns (kept: seq<Storage.SnippetRec>, rejected: seq<Storage.PushOutcome>)
      ensures kept == Pushing.Kept(st, xs, sub, role)
      ensures rejected == Pushing.Rejected(st, xs, sub, role)
    {
      kept, rejected := [], [];
      for i := 0 to |xs|
        invariant kept == Pushing.Kept(st, xs[..i], sub, role)
        invariant rejected == Pushing.Rejected(st, xs[..i], sub, role)
      {
        assert xs[..i + 1][..i] == xs[..i];
        var s := xs[i];
        match Pushing.Held(st, s.id) {
          case Some(server) =>
            if server.owner != sub && !role.AtLeast(Manager) {
              rejected := rejected + [Storage.Superseded(s.id, Storage.Snip(server))];
            } else {
              kept := kept + [s.(owner := server.owner)];
            }
          case None =>
            kept := kept + [s.(owner := sub)];
        }
      }
      assert xs[..|xs|] == xs;
    }

    /** One record against the row it would replace: write it under the next number, or show that row. */
    static method MergeRecord(st: Storage.TeamStore, rec: Storage.Record) returns (after: Storage.TeamStore, out: Storage.PushOutcome)
      ensures (after, out) == Storage.MergeOne(st, rec)
    {
      var existing := Storage.Find(st.log, rec.Key());
      if existing.Some? && !Storage.Beats(rec, existing.value.rec) {
        return st, Storage.Superseded(rec.Key().id, existing.value.rec);
      }
      var num := st.counter + 1;
      after := Storage.TeamStore(num, Storage.Without(st.log, rec.Key()) + [Storage.Row(num, rec)]);
      out := Storage.Accepted(rec.Key().id);
    }

    /** One transaction over the batch. */
    static method Merge(st: Storage.TeamStore, recs: seq<Storage.Record>)
      returns (after: Storage.TeamStore, outs: seq<Storage.PushOutcome>)
      ensures (after, outs) == Storage.MergeAll(st, recs)
    {
      after, outs := st, [];
      for i := 0 to |recs|
        invariant (after, outs) == Storage.MergeAll(st, recs[..i])
      {
        assert recs[..i + 1] == recs[..i] + [recs[i]];
        Storage.MergeAllSnoc(st, recs[..i], recs[i]);
        var out;
        after, out := MergeRecord(after, recs[i]);
        outs := outs + [out];
      }
      assert recs[..|recs|] == recs;
    }

    method Push(id: Identity, team: string, batch: Pushing.Batch, now: string) returns (out: Result<Reply, ApiError>)
      modifies this
      ensures Step(View(), out) == Handle(cfg, old(View()), id, now, Op.Push(team, batch))
    {
      var access := EnsureAccess(team, id, Writer);
      if access.Err? {
        return Err(access.error);
      }
      if IsArchived(View(), team) {
        return Err(ArchivedTeam);
      }
      if !Pushing.ValidBatch(team, batch) {
        return Err(Validation);
      }
      if Blocked(View(), team, id.sub, access.value, batch) {
        return Err(Denied);
      }
      var st := StoreOf(View(), team);
      var kept, rejected := SplitBatch(st, batch.snippets, id.sub, access.value);
      var after, outs := Merge(st, Pushing.Wrapped(Pushing.Stripped(batch.groups), kept));
      Pushing.MergeAcksInOrder(st, Pushing.Arrivals(st, batch, id.sub, access.value));
      stores := stores[team := after];
      var n := |batch.groups|;
      return Ok(Acknowledged(Pushing.Ack(outs[n..] + rejected, outs[..n], after.counter)));
    }

    method Members(id: Identity, team: string, now: string) returns (out: Result<Reply, ApiError>)
      modifies this
      ensures Step(View(), out) == Handle(cfg, old(View()), id, now, Op.Members(team))
    {
      var access := EnsureAccess(team, id, Reader);
      if access.Err? {
        return Err(access.error);
      }
      return if IsArchived(View(), team) then Err(ArchivedTeam) else Ok(Nothing);
    }

    // ---- joining and leaving -----------------------------------------------------------------------

    static lemma JoinOneMore(m: map<Seat, Role>, sub: string, teams: set<string>, role: Role, t: string)
      ensures var cur := JoinedRoles(m, sub, teams, role);
        JoinedRoles(m, sub, teams + {t}, role) ==
          if Seat(t, sub) in cur && cur[Seat(t, sub)].AtLeast(role) then cur else cur[Seat(t, sub) := role]
    {
      var cur, more := JoinedRoles(m, sub, teams, role), JoinedRoles(m, sub, teams + {t}, role);
      var want := if Seat(t, sub) in cur && cur[Seat(t, sub)].AtLeast(role) then cur else cur[Seat(t, sub) := role];
      forall seat
        ensures (seat in more <==> seat in want) && (seat in more ==> more[seat] == want[seat])
      {
        Ownership.JoinedRow(m, sub, teams, role, seat);
        Ownership.JoinedRow(m, sub, teams + {t}, role, seat);
      }
    }

    static lemma OpenOneMore(registry: map<string, bool>, teams: seq<string>, i: nat)
      requires i < |teams|
      ensures var t := teams[i];
        OpenIn(registry, teams[..i + 1]) ==
          if t in registry && registry[t] then OpenIn(registry, teams[..i]) else OpenIn(registry, teams[..i]) + {t}
    {
      assert teams[..i + 1] == teams[..i] + [teams[i]];
    }

    /** The joining loop: archived teams are passed over, a held role that is high enough stays. */
    method JoinTeams(sub: string, teams: seq<string>, role: Role) returns (joined: seq<string>)
      modifies this`roles
      ensures roles == JoinedRoles(old(roles), sub, OpenIn(registry, teams), role)
      ensures joined == [] <==> OpenIn(registry, teams) == {}
    {
      joined := [];
      for i := 0 to |teams|
        invariant joined == [] <==> OpenIn(registry, teams[..i]) == {}
        invariant roles == JoinedRoles(old(roles), sub, OpenIn(registry, teams[..i]), role)
      {
        var team := teams[i];
        OpenOneMore(registry, teams, i);
        if !(team in registry && registry[team]) {
          JoinOneMore(old(roles), sub, OpenIn(registry, teams[..i]), role, team);
          if Seat(team, sub) !in roles || !roles[Seat(team, sub)].AtLeast(role) {
            roles := roles[Seat(team, sub) := role];
          }
          joined := joined + [team];
        }
      }
      assert teams[..|teams|] == teams;
    }

    method RedeemInvite(id: Identity, codeLen: nat, sha: string, now: string) returns (out: Result<Reply, ApiError>)
      modifies this
      ensures Step(View(), out) == RedeemStep(cfg, old(View()), id, codeLen, sha, now)
    {
      if codeLen == 0 || codeLen > 512 {
        return Err(Validation);
      }
      if sha !in tokens || !Auth.Redeemable(tokens[sha], now) {
        return Err(Validation);
      }
      var invite := tokens[sha];
      var joined := JoinTeams(id.sub, invite.teams, JoinRole(cfg, View(), invite));
      RedeemOutcome(cfg, old(View()), id, codeLen, sha, now);
      if joined == [] {
        assert roles == old(roles);
        return Err(Validation);
      }
      if id.tokenSha != Some(sha) {
        tokens := tokens[sha := Revoked(tokens[sha], now)];
      }
      return Ok(Nothing);
    }

    /** Leaving drops the team from each live token of the caller's, or revokes the token with it. */
    method LeaveTokens(sub: string, team: string, now: string)
      modifies this`tokens
      ensures tokens == LeftTokens(old(tokens), sub, team, now)
    {
      var pending := set sha | sha in tokens && tokens[sha].sub == sub;
      while pending != {}
        invariant tokens.Keys == old(tokens).Keys
        invariant forall sha :: sha in pending ==> sha in old(tokens) && old(tokens)[sha].sub == sub
        invariant forall sha :: sha in tokens ==>
          tokens[sha] == (if old(tokens)[sha].sub == sub && sha !in pending then LeftToken(old(tokens)[sha], team, now) else old(tokens)[sha])
        decreases pending
      {
        var sha :| sha in pending;
        var t := tokens[sha];
        pending := pending - {sha};
        if t.revokedAt.Some? || team !in t.teams {
          continue;
        }
        var remaining := WithoutTeam(t.teams, team);
        if remaining == [] {
          tokens := tokens[sha := Revoked(t, now)];
        } else {
          tokens := tokens[sha := t.(teams := remaining)];
        }
      }
    }

    method LeaveTeam(id: Identity, team: string, now: string) returns (out: Result<Reply, ApiError>)
      modifies this
      ensures Step(View(), out) == LeaveStep(cfg, old(View()), id, team, now)
    {
      var resolved := Access.Resolve(cfg, View(), team, id);
      if resolved.None? {
        return Err(Forbidden);
      }
      if resolved.value == Owner && |Owners(View(), team)| <= 1 {
        return Err(Validation);
      }
      roles := roles - {Seat(team, id.sub)};
      LeaveTokens(id.sub, team, now);
      return Ok(Nothing);
    }

    /** Revoking drops the team from each live token of the target's, or revokes a single-team token. */
    method CutOffTokens(sub: string, team: string, now: string)
      modifies this`tokens
      ensures tokens == CutTokens(old(tokens), sub, team, now)
    {
      var pending := set sha | sha in tokens && tokens[sha].sub == sub;
      while pending != {}
        invariant tokens.Keys == old(tokens).Keys
        invariant forall sha :: sha in pending ==> sha in old(tokens) && old(tokens)[sha].sub == sub
        invariant forall sha :: sha in tokens ==>
          tokens[sha] == (if old(tokens)[sha].sub == sub && sha !in pending then CutToken(old(tokens)[sha], team, now) else old(tokens)[sha])
        decreases pending
      {
        var sha :| sha in pending;
        var t := tokens[sha];
        pending := pending - {sha};
        if team !in t.teams || t.revokedAt.Some? {
          continue;
        }
        if |t.teams| == 1 {
          tokens := tokens[sha := Revoked(t, now)];
        } else {
          tokens := tokens[sha := t.(teams := WithoutTeam(t.teams, team))];
        }
      }
    }

    method RevokeAccess(id: Identity, team: string, sub: string, now: string) returns (out: Result<Reply, ApiError>)
      modifies this
      ensures Step(View(), out) == Handle(cfg, old(View()), id, now, Op.RevokeAccess(team, sub))
    {
      var access := EnsureAccess(team, id, Manager);
      if access.Err? {
        return Err(access.error);
      }
      var current := RoleRow(View(), team, sub).UnwrapOr(Reader);
      if !MayAdminister(access.value, current, Reader) {
        return Err(Forbidden);
      }
      CutOffTokens(sub, team, now);
      roles := roles - {Seat(team, sub)};
      return Ok(Nothing);
    }

    // ---- administration ------------------------------------------------------------------------------

    /** The best role the caller holds anywhere, found by walking the caller's teams. */
    method BestRole(id: Identity) returns (best: Role)
      ensures forall min: Role :: min != Reader ==> (best.AtLeast(min) <==> HoldsSomewhere(cfg, View(), id, min))
    {
      best := Reader;
      var pending := MyTeams(View(), id);
      ghost var seen: set<string> := {};
      while pending != {}
        invariant seen + pending == MyTeams(View(), id)
        invariant forall t :: t in seen && Access.Resolve(cfg, View(), t, id).Some? ==>
          best.AtLeast(Access.Resolve(cfg, View(), t, id).value)
        invariant best == Reader || exists t :: t in seen && Access.Resolve(cfg, View(), t, id) == Some(best)
        decreases pending
      {
        var t :| t in pending;
        pending, seen := pending - {t}, seen + {t};
        var r := Access.Resolve(cfg, View(), t, id);
        if r.Some? {
          best := Max(best, r.value);
        }
      }
    }

    method CreateTeam(id: Identity, team: string) returns (out: Result<Reply, ApiError>)
      modifies this
      ensures Step(View(), out) == CreateTeamStep(cfg, old(View()), id, team)
    {
      if !ValidTeamName(team) {
        return Err(Validation);
      }
      var best := BestRole(id);
      var policy := Org(View()).teamCreation;
      var allowed := if policy == "owners" then best.AtLeast(Owner) else if policy == "admins" then best.AtLeast(Admin) else true;
      if !allowed {
        return Err(Forbidden);
      }
      var created := team !in registry;
      if created {
        registry := registry[team := false];
      } else {
        if registry[team] && Access.Resolve(cfg, View(), team, id) == Some(Owner) {
          registry := registry[team := false];
          return Ok(Nothing);
        }
        return Err(Validation);
      }
      roles := roles[Seat(team, id.sub) := Owner];
      return Ok(Nothing);
    }

    method ArchiveTeam(id: Identity, team: string, now: string) returns (out: Result<Reply, ApiError>)
      modifies this
      ensures Step(View(), out) == Handle(cfg, old(View()), id, now, Op.Archive(team))
    {
      var access := EnsureAccess(team, id, Owner);
      if access.Err? {
        return Err(access.error);
      }
      registry := registry[team := true];
      return Ok(Nothing);
    }

    method SetRole(id: Identity, team: string, sub: string, role: string, now: string) returns (out: Result<Reply, ApiError>)
      modifies this
      ensures Step(View(), out) == Handle(cfg, old(View()), id, now, Op.SetRole(team, sub, role))
    {
      var access := EnsureAccess(team, id, Manager);
      if access.Err? {
        return Err(access.error);
      }
      var wanted := RoleFromStr(role);
      if wanted.None? {
        return Err(Validation);
      }
      var current := RoleRow(View(), team, sub).UnwrapOr(Reader);
      if !MayAdminister(access.value, current, wanted.value) {
        return Err(Forbidden);
      }
      roles := roles[Seat(team, sub) := wanted.value];
      return Ok(Nothing);
    }

    method RemoveRole(id: Identity, team: string, sub: string, now: string) returns (out: Result<Reply, ApiError>)
      modifies this
      ensures Step(View(), out) == Handle(cfg, old(View()), id, now, Op.RemoveRole(team, sub))
    {
      var access := EnsureAccess(team, id, Manager);
      if access.Err? {
        return Err(access.error);
      }
      var current := RoleRow(View(), team, sub).UnwrapOr(Reader);
      if !MayAdminister(access.value, current, Reader) {
        return Err(Forbidden);
      }
      roles := roles - {Seat(team, sub)};
      return Ok(Nothing);
    }

    method PutOrg(id: Identity, settings: OrgSettings) returns (out: Result<Reply, ApiError>)
      modifies this
      ensures Step(View(), out) == PutOrgStep(cfg, old(View()), id, settings)
    {
      var best := BestRole(id);
      if !best.AtLeast(Owner) {
        return Err(Forbidden);
      }
      if !ValidOrg(settings) {
        return Err(Validation);
      }
      org := Some(settings);
      return Ok(Nothing);
    }

    method CreateInvite(
      id: Identity, team: string, sub: string, pinned: Option<string>, expiresAt: Option<string>, newSha: string, now: string)
      returns (out: Result<Reply, ApiError>)
      modifies this
      ensures Step(View(), out) == Handle(cfg, old(View()), id, now, Op.CreateInvite(team, sub, pinned, expiresAt, newSha))
    {
      var access := EnsureAccess(team, id, Manager);
      if access.Err? {
        return Err(access.error);
      }
      if sub == "" || Text.Utf8Len(sub) > 256 {
        return Err(Validation);
      }
      if pinned.Some? {
        var role := RoleFromStr(pinned.value);
        if role.None? {
          return Err(Validation);
        }
        if !InviteCeiling(access.value).AtLeast(role.value) {
          return Err(Forbidden);
        }
      }
      if newSha in tokens {
        return Err(StorageFailure);
      }
      tokens := tokens[newSha := StoredToken(sub, [team], pinned, expiresAt, None)];
      return Ok(Nothing);
    }

    method SetRestricted(id: Identity, team: string, group: string, on: bool, now: string) returns (out: Result<Reply, ApiError>)
      modifies this
      ensures Step(View(), out) == Handle(cfg, old(View()), id, now, Op.SetRestricted(team, group, on))
    {
      var access := EnsureAccess(team, id, Manager);
      if access.Err? {
        return Err(access.error);
      }
      restricted := if on then restricted + {GroupFlag(team, group)} else restricted - {GroupFlag(team, group)};
      return Ok(Nothing);
    }

    method SetGrant(id: Identity, team: string, group: string, sub: string, level: string, now: string)
      returns (out: Result<Reply, ApiError>)
      modifies this
      ensures Step(View(), out) == Handle(cfg, old(View()), id, now, Op.SetGrant(team, group, sub, level))
    {
      var access := EnsureAccess(team, id, Manager);
      if access.Err? {
        return Err(access.error);
      }
      if level != "read" && level != "write" {
        return Err(Validation);
      }
      grants := grants[Acl(team, group, sub) := level];
      return Ok(Nothing);
    }

    method RemoveGrant(id: Identity, team: string, group: string, sub: string, now: string) returns (out: Result<Reply, ApiError>)
      modifies this
      ensures Step(View(), out) == Handle(cfg, old(View()), id, now, Op.RemoveGrant(team, group, sub))
    {
      var access := EnsureAccess(team, id, Manager);
      if access.Err? {
        return Err(access.error);
      }
      grants := grants - {Acl(team, group, sub)};
      return Ok(Nothing);
    }

    method Inspect(id: Identity, team: string, now: string) returns (out: Result<Reply, ApiError>)
      modifies this
      ensures Step(View(), out) == Handle(cfg, old(View()), id, now, Op.Inspect(team))
    {
      var access := EnsureAccess(team, id, Manager);
      return if access.Err? then Err(access.error) else Ok(Nothing);
    }

    // ---- the request loop ---------------------------------------------------------------------------------

    method Route(id: Identity, now: string, op: Op) returns (out: Result<Reply, ApiError>)
      modifies this
      ensures Step(View(), out) == Handle(cfg, old(View()), id, now, op)
    {
      match op {
        case Pull(team, since, limit) => out := Pull(id, team, since, limit, now);
        case Push(team, batch) => out := Push(id, team, batch, now);
        case Members(team) => out := Members(id, team, now);
        case Redeem(codeLen, sha) => out := RedeemInvite(id, codeLen, sha, now);
        case Leave(team) => out := LeaveTeam(id, team, now);
        case CreateTeam(team) => out := CreateTeam(id, team);
        case Archive(team) => out := ArchiveTeam(id, team, now);
        case SetRole(team, sub, role) => out := SetRole(id, team, sub, role, now);
        case RemoveRole(team, sub) => out := RemoveRole(id, team, sub, now);
        case PutOrg(settings) => out := PutOrg(id, settings);
        case CreateInvite(team, sub, pinned, expiresAt, newSha) =>
          out := CreateInvite(id, team, sub, pinned, expiresAt, newSha, now);
        case RevokeAccess(team, sub) => out := RevokeAccess(id, team, sub, now);
        case SetRestricted(team, group, on) => out := SetRestricted(id, team, group, on, now);
        case SetGrant(team, group, sub, level) => out := SetGrant(id, team, group, sub, level, now);
        case RemoveGrant(team, group, sub) => out := RemoveGrant(id, team, group, sub, now);
        case Inspect(team) => out := Inspect(id, team, now);
      }
    }

    /** Authenticate, then run the handler. */
    method Serve(req: Request) returns (out: Result<Reply, ApiError>)
      modifies this
      ensures Step(View(), out) == Next(cfg, old(View()), req)
    {
      var who := Auth.Authenticate(cfg, View(), req.sha, req.oidc, req.now);
      if who.Err? {
        return Err(who.error);
      }
      out := Route(who.value, req.now, req.op);
    }

    /** Serving a list of requests one after the other is a history. */
    method ServeAll(reqs: seq<Request>)
      modifies this
      ensures View() == Run(cfg, old(View()), reqs)
    {
      for i := 0 to |reqs|
        invariant View() == Run(cfg, old(View()), reqs[..i])
      {
        assert reqs[..i + 1][..i] == reqs[..i];
        var _ := Serve(reqs[i]);
      }
      assert reqs[..|reqs|] == reqs;
    }
  }
}
