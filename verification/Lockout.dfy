/** Revoking access and leaving: what they take away, what they leave alone, and how long it lasts. */
module Lockout {
  import opened Wrappers
  import opened Roles
  import opened State
  import opened Auth
  import opened Access
  import opened Api
  import Tokens
  import Ownership

  /** No row for (team, sub), and no unrevoked stored token of sub lists the team. */
  ghost predicate LockedOut(db: Db, team: string, sub: string) {
    && Seat(team, sub) !in db.roles
    && NoToken(db.tokens, team, sub)
  }

  ghost predicate NoToken(tokens: map<string, StoredToken>, team: string, sub: string) {
    forall sha :: sha in tokens && tokens[sha].sub == sub && tokens[sha].revokedAt.None? ==> team !in tokens[sha].teams
  }

  /** What a token still opens. */
  function LiveTeams(t: StoredToken): seq<string> {
    if t.revokedAt.None? then t.teams else []
  }

  /** Every other row and every other team entry, in order, is as before. */
  ghost predicate OnlyTouches(after: Db, before: Db, team: string, sub: string) {
    && after.roles == before.roles - {Seat(team, sub)}
    && after.tokens.Keys == before.tokens.Keys
    && (forall sha :: sha in before.tokens && before.tokens[sha].sub != sub ==> after.tokens[sha] == before.tokens[sha])
    && (forall sha :: sha in before.tokens ==>
          WithoutTeam(after.tokens[sha].teams, team) == WithoutTeam(before.tokens[sha].teams, team))
    && (forall sha :: sha in before.tokens && before.tokens[sha].sub == sub ==>
          LiveTeams(after.tokens[sha]) == WithoutTeam(LiveTeams(before.tokens[sha]), team))
  }

  /** The two routines on one token: both leave it open to the same teams, minus this one. */
  lemma SameLiveTeams(t: StoredToken, team: string, now: string)
    ensures LiveTeams(CutToken(t, team, now)) == WithoutTeam(LiveTeams(t), team)
    ensures LiveTeams(LeftToken(t, team, now)) == WithoutTeam(LiveTeams(t), team)
    ensures WithoutTeam(CutToken(t, team, now).teams, team) == WithoutTeam(t.teams, team)
    ensures WithoutTeam(LeftToken(t, team, now).teams, team) == WithoutTeam(t.teams, team)
  {
    Tokens.WithoutTeamFacts(t.teams, team);
    if |t.teams| == 1 && team in t.teams {
      assert t.teams == [team];
      assert t.teams[1..] == [];
    }
  }

  lemma RevokingLocksOut(db: Db, caller: Role, team: string, sub: string, now: string)
    requires RevokeAccessBody(db, caller, team, sub, now).out.Ok?
    ensures LockedOut(RevokeAccessBody(db, caller, team, sub, now).db, team, sub)
    ensures OnlyTouches(RevokeAccessBody(db, caller, team, sub, now).db, db, team, sub)
  {
    var after := RevokeAccessBody(db, caller, team, sub, now).db;
    assert after.tokens == CutTokens(db.tokens, sub, team, now);
    forall sha | sha in db.tokens
      ensures WithoutTeam(after.tokens[sha].teams, team) == WithoutTeam(db.tokens[sha].teams, team)
      ensures db.tokens[sha].sub == sub ==> LiveTeams(after.tokens[sha]) == WithoutTeam(LiveTeams(db.tokens[sha]), team)
      ensures db.tokens[sha].sub == sub && after.tokens[sha].revokedAt.None? ==> team !in after.tokens[sha].teams
    {
      SameLiveTeams(db.tokens[sha], team, now);
      Tokens.WithoutTeamFacts(LiveTeams(db.tokens[sha]), team);
    }
  }

  /**
   A revoke that succeeds locks the sub out, whoever asked and even if asking just made the caller the
   team's owner, and touches nothing else.
   */
  lemma RevokeAccessLocksOut(cfg: Config, db: Db, req: Request, team: string, sub: string)
    requires req.op == RevokeAccess(team, sub) && Next(cfg, db, req).out.Ok?
    ensures LockedOut(Next(cfg, db, req).db, team, sub)
    ensures var id := Authenticate(cfg, db, req.sha, req.oidc, req.now).value;
      OnlyTouches(Next(cfg, db, req).db, if Bootstraps(db, team, id) then SetRow(db, team, id.sub, Owner) else db, team, sub)
  {
    var id := Authenticate(cfg, db, req.sha, req.oidc, req.now).value;
    GateEffect(cfg, db, team, id, Manager);
    var gate := GateOf(cfg, db, id, req.op);
    RevokingLocksOut(gate.db, gate.role.value, team, sub, req.now);
  }

  lemma LeavingLocksOut(cfg: Config, db: Db, id: Identity, team: string, now: string)
    requires LeaveStep(cfg, db, id, team, now).out.Ok?
    ensures LockedOut(LeaveStep(cfg, db, id, team, now).db, team, id.sub)
    ensures OnlyTouches(LeaveStep(cfg, db, id, team, now).db, db, team, id.sub)
  {
    var after := LeaveStep(cfg, db, id, team, now).db;
    assert after.tokens == LeftTokens(db.tokens, id.sub, team, now);
    forall sha | sha in db.tokens
      ensures WithoutTeam(after.tokens[sha].teams, team) == WithoutTeam(db.tokens[sha].teams, team)
      ensures db.tokens[sha].sub == id.sub ==> LiveTeams(after.tokens[sha]) == WithoutTeam(LiveTeams(db.tokens[sha]), team)
      ensures db.tokens[sha].sub == id.sub && after.tokens[sha].revokedAt.None? ==> team !in after.tokens[sha].teams
    {
      SameLiveTeams(db.tokens[sha], team, now);
      Tokens.WithoutTeamFacts(LiveTeams(db.tokens[sha]), team);
    }
  }

  // ---- where the two routines differ ---------------------------------------------------------

  ghost predicate NoRepeats(teams: seq<string>) {
    forall i, j :: 0 <= i < j < |teams| ==> teams[i] != teams[j]
  }

  /** Revoking leaves a token alive with no team where leaving revokes it: only for a team listed twice and alone. */
  lemma RoutinesAgreeIff(t: StoredToken, team: string, now: string)
    ensures CutToken(t, team, now) == LeftToken(t, team, now) <==>
      !(t.revokedAt.None? && |t.teams| >= 2 && forall x :: x in t.teams ==> x == team)
  {
    Tokens.WithoutTeamFacts(t.teams, team);
    Tokens.NothingLeft(t.teams, team);
    var rest := WithoutTeam(t.teams, team);
    if |t.teams| >= 2 && forall x :: x in t.teams ==> x == team {
      assert t.teams[0] in t.teams;
    } else if |t.teams| == 1 && team in t.teams {
      assert t.teams == [team];
      assert t.teams[1..] == [];
    } else if team in t.teams {
      var x :| x in t.teams && x != team;
      assert x in rest;
    }
  }

  /** A list without repeats never hits the difference. */
  lemma NoRepeatsNoDifference(t: StoredToken, team: string, now: string)
    requires NoRepeats(t.teams)
    ensures CutToken(t, team, now) == LeftToken(t, team, now)
  {
    RoutinesAgreeIff(t, team, now);
    if |t.teams| >= 2 {
      assert t.teams[0] in t.teams && t.teams[1] in t.teams && t.teams[0] != t.teams[1];
    }
  }

  lemma {:induction false} SublistNoRepeats(a: seq<string>, b: seq<string>)
    requires Tokens.Sublist(a, b) && NoRepeats(b)
    ensures NoRepeats(a) && forall x :: x in a ==> x in b
  {
    if a == [] {
    } else {
      if a[0] == b[0] && Tokens.Sublist(a[1..], b[1..]) {
        SublistNoRepeats(a[1..], b[1..]);
        forall j | 1 <= j < |a| ensures a[j] != a[0] && a[j] in b {
          assert a[1..][j - 1] in a[1..];
          var k :| 0 <= k < |b| - 1 && b[1..][k] == a[j];
          assert b[k + 1] == a[j];
        }
      } else {
        SublistNoRepeats(a, b[1..]);
      }
    }
  }

  ghost predicate TokensWithoutRepeats(db: Db) {
    forall sha :: sha in db.tokens ==> NoRepeats(db.tokens[sha].teams)
  }

  /** Minted invites list one team and lists only shrink, so no history introduces a repeat. */
  lemma NoRequestIntroducesRepeats(cfg: Config, db: Db, req: Request)
    requires TokensWithoutRepeats(db)
    ensures TokensWithoutRepeats(Next(cfg, db, req).db)
  {
    var after := Next(cfg, db, req).db;
    Tokens.TokensOnlyWeaken(cfg, db, req);
    forall sha | sha in after.tokens ensures NoRepeats(after.tokens[sha].teams) {
      if sha in db.tokens {
        SublistNoRepeats(after.tokens[sha].teams, db.tokens[sha].teams);
      } else {
        NewTokenIsInvite(cfg, db, req, sha);
      }
    }
  }

  lemma {:induction false} NoHistoryIntroducesRepeats(cfg: Config, db: Db, reqs: seq<Request>)
    requires TokensWithoutRepeats(db)
    ensures TokensWithoutRepeats(Run(cfg, db, reqs))
  {
    if reqs == [] {
    } else {
      var n := |reqs| - 1;
      NoHistoryIntroducesRepeats(cfg, db, reqs[..n]);
      NoRequestIntroducesRepeats(cfg, Run(cfg, db, reqs[..n]), reqs[n]);
    }
  }

  /**
   In every state that any history reaches from clean tokens, revoking and leaving would do the same
   to every stored token, for every team.
   */
  lemma RoutinesAgreeInRun(cfg: Config, db: Db, reqs: seq<Request>, sub: string, team: string, now: string)
    requires TokensWithoutRepeats(db)
    ensures var tokens := Run(cfg, db, reqs).tokens;
      && (forall sha :: sha in tokens ==> CutToken(tokens[sha], team, now) == LeftToken(tokens[sha], team, now))
      && CutTokens(tokens, sub, team, now) == LeftTokens(tokens, sub, team, now)
  {
    NoHistoryIntroducesRepeats(cfg, db, reqs);
    var tokens := Run(cfg, db, reqs).tokens;
    forall sha | sha in tokens ensures CutToken(tokens[sha], team, now) == LeftToken(tokens[sha], team, now) {
      NoRepeatsNoDifference(tokens[sha], team, now);
    }
  }

  /** A token that was not there before is the invite the request minted. */
  lemma NewTokenIsInvite(cfg: Config, db: Db, req: Request, sha: string)
    requires sha in Next(cfg, db, req).db.tokens && sha !in db.tokens
    ensures req.op.CreateInvite? && sha == req.op.newSha && Next(cfg, db, req).out.Ok?
    ensures Next(cfg, db, req).db.tokens[sha] ==
      StoredToken(req.op.sub, [req.op.team], req.op.pinned, req.op.expiresAt, None)
    ensures forall s :: s in db.tokens ==> s in Next(cfg, db, req).db.tokens && Next(cfg, db, req).db.tokens[s] == db.tokens[s]
  {
    var id := Authenticate(cfg, db, req.sha, req.oidc, req.now).value;
    if Gated(req.op) {
      GateFrame(cfg, db, id, req.op);
      var gate := GateOf(cfg, db, id, req.op);
      if gate.role.Ok? {
        BodyFrame(gate.db, id, gate.role.value, req.now, req.op);
      }
    } else if req.op.Redeem? {
      RedeemOutcome(cfg, db, id, req.op.codeLen, req.op.sha, req.now);
    } else {
      UngatedFrame(cfg, db, id, req.now, req.op);
    }
  }

  // ---- how long it lasts -----------------------------------------------------------------------

  /** The requests that let (team, sub) back in. */
  ghost predicate LetsIn(cfg: Config, db: Db, req: Request, team: string, sub: string) {
    var who := Authenticate(cfg, db, req.sha, req.oidc, req.now);
    && who.Ok?
    && match req.op
       case SetRole(t, s, _) => (t == team && s == sub && Next(cfg, db, req).out.Ok?) || Crowns(db, who.value, t, team, sub)
       case CreateInvite(t, s, _, _, _) => (t == team && s == sub && Next(cfg, db, req).out.Ok?) || Crowns(db, who.value, t, team, sub)
       case Redeem(codeLen, sha) =>
         who.value.sub == sub && RedeemAccepted(db, codeLen, sha, req.now) && team in OpenTeams(db, db.tokens[sha])
       case CreateTeam(t) => t == team && who.value.sub == sub && team !in db.registry && Next(cfg, db, req).out.Ok?
       case RemoveRole(t, s) => Crowns(db, who.value, t, team, sub) && s != sub
       case RevokeAccess(t, s) => Crowns(db, who.value, t, team, sub) && s != sub
       case Leave(_) => false
       case PutOrg(_) => false
       case _ => Crowns(db, who.value, req.op.team, team, sub)
  }

  /** Touching `at` crowns (team, sub): the caller is sub, carries the team, and nobody owns it. */
  ghost predicate Crowns(db: Db, id: Identity, at: string, team: string, sub: string) {
    at == team && id.sub == sub && Bootstraps(db, team, id)
  }

  lemma GateLetsIn(cfg: Config, db: Db, id: Identity, op: Op, team: string, sub: string)
    requires Gated(op) && LockedOut(db, team, sub)
    ensures LockedOut(GateOf(cfg, db, id, op).db, team, sub) || Crowns(db, id, op.team, team, sub)
  {
    GateEffect(cfg, db, op.team, id, GateLevel(op));
  }

  lemma BodyLetsIn(db: Db, id: Identity, role: Role, now: string, op: Op, team: string, sub: string)
    requires Gated(op) && LockedOut(db, team, sub)
    ensures LockedOut(Body(db, id, role, now, op).db, team, sub)
         || ((op.SetRole? || op.CreateInvite?) && op.team == team && op.sub == sub && Body(db, id, role, now, op).out.Ok?)
  {
    BodyFrame(db, id, role, now, op);
    if op.RevokeAccess? {
      var after := CutTokens(db.tokens, op.sub, op.team, now);
      forall sha | sha in after && after[sha].sub == sub && after[sha].revokedAt.None? ensures team !in after[sha].teams {
        Tokens.WithoutTeamFacts(db.tokens[sha].teams, op.team);
      }
    }
  }

  lemma UngatedLetsIn(cfg: Config, db: Db, id: Identity, now: string, op: Op, team: string, sub: string)
    requires !Gated(op) && LockedOut(db, team, sub)
    ensures LockedOut(Handle(cfg, db, id, now, op).db, team, sub)
         || (op.CreateTeam? && op.team == team && id.sub == sub && team !in db.registry && Handle(cfg, db, id, now, op).out.Ok?)
         || (op.Redeem? && id.sub == sub && RedeemAccepted(db, op.codeLen, op.sha, now) && team in OpenTeams(db, db.tokens[op.sha]))
  {
    if op.Redeem? {
      RedeemOutcome(cfg, db, id, op.codeLen, op.sha, now);
      if RedeemAccepted(db, op.codeLen, op.sha, now) {
        Ownership.JoinedRow(db.roles, id.sub, OpenTeams(db, db.tokens[op.sha]), JoinRole(cfg, db, db.tokens[op.sha]), Seat(team, sub));
      }
    } else if op.Leave? {
      var after := LeftTokens(db.tokens, id.sub, op.team, now);
      forall sha | sha in after && after[sha].sub == sub && after[sha].revokedAt.None? ensures team !in after[sha].teams {
        Tokens.WithoutTeamFacts(db.tokens[sha].teams, op.team);
      }
    } else {
      UngatedFrame(cfg, db, id, now, op);
    }
  }

  /** One request: locked out stays locked out unless the request lets them in. */
  lemma LockedOutStep(cfg: Config, db: Db, req: Request, team: string, sub: string)
    requires LockedOut(db, team, sub)
    ensures LockedOut(Next(cfg, db, req).db, team, sub) || LetsIn(cfg, db, req, team, sub)
  {
    var who := Authenticate(cfg, db, req.sha, req.oidc, req.now);
    if who.Ok? {
      var id := who.value;
      if Gated(req.op) {
        GateLetsIn(cfg, db, id, req.op, team, sub);
        var gate := GateOf(cfg, db, id, req.op);
        if gate.role.Ok? && LockedOut(gate.db, team, sub) {
          BodyLetsIn(gate.db, id, gate.role.value, req.now, req.op, team, sub);
        }
      } else {
        UngatedLetsIn(cfg, db, id, req.now, req.op, team, sub);
      }
    }
  }

  /** Nothing in that list is idle: a request is on it if and only if it ends the lockout. */
  lemma LetsInIsExact(cfg: Config, db: Db, req: Request, team: string, sub: string)
    requires LockedOut(db, team, sub)
    ensures LetsIn(cfg, db, req, team, sub) <==> !LockedOut(Next(cfg, db, req).db, team, sub)
  {
    LockedOutStep(cfg, db, req, team, sub);
    if LetsIn(cfg, db, req, team, sub) {
      var id := Authenticate(cfg, db, req.sha, req.oidc, req.now).value;
      if Gated(req.op) {
        GatedLetsIn(cfg, db, id, req.now, req.op, team, sub);
      } else if req.op.Redeem? {
        RedeemOutcome(cfg, db, id, req.op.codeLen, req.op.sha, req.now);
        var invite := db.tokens[req.op.sha];
        Ownership.JoinedRow(db.roles, id.sub, OpenTeams(db, invite), JoinRole(cfg, db, invite), Seat(team, sub));
      }
    }
  }

  lemma GatedLetsIn(cfg: Config, db: Db, id: Identity, now: string, op: Op, team: string, sub: string)
    requires Gated(op)
    requires (Crowns(db, id, op.team, team, sub) && (op.RemoveRole? || op.RevokeAccess? ==> op.sub != sub))
          || ((op.SetRole? || op.CreateInvite?) && op.team == team && op.sub == sub && Handle(cfg, db, id, now, op).out.Ok?)
    ensures !LockedOut(Handle(cfg, db, id, now, op).db, team, sub)
  {
    GateEffect(cfg, db, op.team, id, GateLevel(op));
    var gate := GateOf(cfg, db, id, op);
    if gate.role.Ok? {
      BodyFrame(gate.db, id, gate.role.value, now, op);
      if op.CreateInvite? && !Crowns(db, id, op.team, team, sub) {
        InviteListsTeam(gate.db, gate.role.value, op, sub);
      }
    }
  }

  lemma InviteListsTeam(db: Db, caller: Role, op: Op, sub: string)
    requires op.CreateInvite? && op.sub == sub
    requires CreateInviteBody(db, caller, op.team, op.sub, op.pinned, op.expiresAt, op.newSha).out.Ok?
    ensures !NoToken(CreateInviteBody(db, caller, op.team, op.sub, op.pinned, op.expiresAt, op.newSha).db.tokens, op.team, sub)
  {
    var after := CreateInviteBody(db, caller, op.team, op.sub, op.pinned, op.expiresAt, op.newSha).db.tokens;
    assert after[op.newSha].teams == [op.team];
    assert op.team in [op.team];
  }

  /** Over every history without such a request they stay locked out. */
  lemma {:induction false} LockedOutInRun(cfg: Config, db: Db, reqs: seq<Request>, team: string, sub: string)
    requires LockedOut(db, team, sub)
    requires forall i :: 0 <= i < |reqs| ==> !LetsIn(cfg, Run(cfg, db, reqs[..i]), reqs[i], team, sub)
    ensures LockedOut(Run(cfg, db, reqs), team, sub)
  {
    if reqs == [] {
    } else {
      var n := |reqs| - 1;
      var pre := reqs[..n];
      forall i | 0 <= i < n ensures pre[..i] == reqs[..i] && pre[i] == reqs[i] {}
      LockedOutInRun(cfg, db, pre, team, sub);
      LockedOutStep(cfg, Run(cfg, db, pre), reqs[n], team, sub);
    }
  }

  /**
   Being locked out means it: through any stored token, sub has no role on the team, every gated
   request on it is refused, and the refusal changes nothing.
   */
  lemma LockedOutHasNoRole(cfg: Config, db: Db, req: Request, team: string, id: Identity)
    requires LockedOut(db, team, id.sub)
    requires Authenticate(cfg, db, req.sha, req.oidc, req.now) == Ok(id) && id.tokenSha.Some?
    ensures Resolve(cfg, db, team, id) == None
    ensures Gated(req.op) && req.op.team == team ==> Next(cfg, db, req) == Step(db, Err(Forbidden))
    ensures !Crowns(db, id, team, team, id.sub)
  {
    StoredIdentity(cfg, db, req.sha, req.oidc, req.now);
  }

  lemma {:induction false} StaticHasNoTokenSha(tokens: seq<StaticToken>, sha: string)
    ensures FromStatic(tokens, sha).Some? ==> FromStatic(tokens, sha).value.tokenSha == None
  {
    if tokens == [] {
    } else {
      StaticHasNoTokenSha(tokens[1..], sha);
    }
  }

  /** An identity that carries a token digest came from that stored, unrevoked token. */
  lemma StoredIdentity(cfg: Config, db: Db, sha: string, oidc: Option<Claims>, now: string)
    ensures var who := Authenticate(cfg, db, sha, oidc, now);
      who.Ok? && who.value.tokenSha.Some? ==>
        && sha in db.tokens && who.value.tokenSha == Some(sha) && db.tokens[sha].revokedAt.None?
        && who.value.sub == db.tokens[sha].sub && who.value.teams == db.tokens[sha].teams
  {
    StaticHasNoTokenSha(cfg.staticTokens, sha);
  }
}
