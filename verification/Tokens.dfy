/** Stored tokens over time: what a request may do to them, and what can never come back. */
module Tokens {
  import opened Wrappers
  import opened Roles
  import opened State
  import opened Auth
  import opened Access
  import opened Api
  import Text
  import Timestamps
  import Ownership

  predicate Sublist(a: seq<string>, b: seq<string>) {
    if a == [] then true
    else if b == [] then false
    else (a[0] == b[0] && Sublist(a[1..], b[1..])) || Sublist(a, b[1..])
  }

  lemma {:induction false} SublistReflexive(a: seq<string>)
    ensures Sublist(a, a)
  {
    if a == [] {
    } else {
      SublistReflexive(a[1..]);
    }
  }

  lemma {:induction false} SublistTransitive(a: seq<string>, b: seq<string>, c: seq<string>)
    requires Sublist(a, b) && Sublist(b, c)
    ensures Sublist(a, c)
    decreases |c|, |b|
  {
    if a == [] || b == [] || c == [] {
    } else {
      if b[0] == c[0] && Sublist(b[1..], c[1..]) {
        if a[0] == b[0] && Sublist(a[1..], b[1..]) {
          SublistTransitive(a[1..], b[1..], c[1..]);
        } else {
          SublistTransitive(a, b[1..], c[1..]);
        }
      } else {
        SublistTransitive(a, b, c[1..]);
      }
    }
  }

  lemma {:induction false} WithoutTeamFacts(teams: seq<string>, team: string)
    ensures Sublist(WithoutTeam(teams, team), teams)
    ensures forall t :: t in WithoutTeam(teams, team) <==> t in teams && t != team
    ensures WithoutTeam(WithoutTeam(teams, team), team) == WithoutTeam(teams, team)
    ensures team !in teams ==> WithoutTeam(teams, team) == teams
    ensures |WithoutTeam(teams, team)| <= |teams|
  {
    if teams == [] {
    } else {
      var rest := WithoutTeam(teams[1..], team);
      WithoutTeamFacts(teams[1..], team);
      SublistReflexive(teams);
      if teams[0] != team {
        assert WithoutTeam(teams, team) == [teams[0]] + rest;
        assert ([teams[0]] + rest)[1..] == rest;
      } else {
        assert WithoutTeam(teams, team) == rest;
      }
    }
  }

  lemma {:induction false} NothingLeft(teams: seq<string>, team: string)
    ensures WithoutTeam(teams, team) == [] <==> forall t :: t in teams ==> t == team
  {
    if teams == [] {
    } else {
      NothingLeft(teams[1..], team);
      assert teams[0] in teams;
      forall t ensures t in teams <==> t == teams[0] || t in teams[1..] {
        assert teams == [teams[0]] + teams[1..];
      }
    }
  }

  /** `after` is what is left of `before`: same holder, role and expiry, no more teams, no un-revoking. */
  ghost predicate Weaker(after: StoredToken, before: StoredToken) {
    && after.sub == before.sub && after.role == before.role && after.expiresAt == before.expiresAt
    && (before.revokedAt.Some? ==> after.revokedAt == before.revokedAt)
    && Sublist(after.teams, before.teams)
  }

  lemma WeakerReflexive(t: StoredToken)
    ensures Weaker(t, t)
  {
    SublistReflexive(t.teams);
  }

  lemma WeakerTransitive(c: StoredToken, b: StoredToken, a: StoredToken)
    requires Weaker(c, b) && Weaker(b, a)
    ensures Weaker(c, a)
  {
    SublistTransitive(c.teams, b.teams, a.teams);
  }

  ghost predicate AllWeaker(after: map<string, StoredToken>, before: map<string, StoredToken>) {
    forall sha :: sha in before ==> sha in after && Weaker(after[sha], before[sha])
  }

  lemma DroppingWeakens(t: StoredToken, team: string, now: string)
    ensures Weaker(LeftToken(t, team, now), t) && Weaker(CutToken(t, team, now), t) && Weaker(Revoked(t, now), t)
  {
    WithoutTeamFacts(t.teams, team);
    SublistReflexive(t.teams);
  }

  lemma BodyWeakens(db: Db, id: Identity, role: Role, now: string, op: Op)
    requires Gated(op)
    ensures AllWeaker(Body(db, id, role, now, op).db.tokens, db.tokens)
  {
    forall sha | sha in db.tokens ensures Weaker(db.tokens[sha], db.tokens[sha]) {
      WeakerReflexive(db.tokens[sha]);
    }
    if op.RevokeAccess? {
      forall sha | sha in db.tokens ensures Weaker(CutToken(db.tokens[sha], op.team, now), db.tokens[sha]) {
        DroppingWeakens(db.tokens[sha], op.team, now);
      }
    } else if !op.CreateInvite? {
      BodyFrame(db, id, role, now, op);
    }
  }

  lemma UngatedWeakens(cfg: Config, db: Db, id: Identity, now: string, op: Op)
    requires !Gated(op)
    ensures AllWeaker(Handle(cfg, db, id, now, op).db.tokens, db.tokens)
  {
    forall sha | sha in db.tokens ensures Weaker(db.tokens[sha], db.tokens[sha]) {
      WeakerReflexive(db.tokens[sha]);
    }
    if op.Redeem? {
      RedeemOutcome(cfg, db, id, op.codeLen, op.sha, now);
      if op.sha in db.tokens {
        DroppingWeakens(db.tokens[op.sha], "", now);
      }
    } else if op.Leave? {
      forall sha | sha in db.tokens ensures Weaker(LeftToken(db.tokens[sha], op.team, now), db.tokens[sha]) {
        DroppingWeakens(db.tokens[sha], op.team, now);
      }
    } else {
      UngatedFrame(cfg, db, id, now, op);
    }
  }

  /** No request strengthens a stored token. */
  lemma TokensOnlyWeaken(cfg: Config, db: Db, req: Request)
    ensures AllWeaker(Next(cfg, db, req).db.tokens, db.tokens)
  {
    forall sha | sha in db.tokens ensures Weaker(db.tokens[sha], db.tokens[sha]) {
      WeakerReflexive(db.tokens[sha]);
    }
    var who := Authenticate(cfg, db, req.sha, req.oidc, req.now);
    if who.Ok? {
      if Gated(req.op) {
        GateFrame(cfg, db, who.value, req.op);
        var gate := GateOf(cfg, db, who.value, req.op);
        if gate.role.Ok? {
          BodyWeakens(gate.db, who.value, gate.role.value, req.now, req.op);
        }
      } else {
        UngatedWeakens(cfg, db, who.value, req.now, req.op);
      }
    }
  }

  /** Over every history a stored token stays stored and only loses power. */
  lemma {:induction false} TokensOnlyWeakenInRun(cfg: Config, db: Db, reqs: seq<Request>)
    ensures AllWeaker(Run(cfg, db, reqs).tokens, db.tokens)
  {
    forall sha | sha in db.tokens ensures Weaker(db.tokens[sha], db.tokens[sha]) {
      WeakerReflexive(db.tokens[sha]);
    }
    if reqs == [] {
    } else {
      var n := |reqs| - 1;
      var before := Run(cfg, db, reqs[..n]);
      TokensOnlyWeakenInRun(cfg, db, reqs[..n]);
      TokensOnlyWeaken(cfg, before, reqs[n]);
      var after := Next(cfg, before, reqs[n]).db;
      forall sha | sha in db.tokens ensures sha in after.tokens && Weaker(after.tokens[sha], db.tokens[sha]) {
        WeakerTransitive(after.tokens[sha], before.tokens[sha], db.tokens[sha]);
      }
    }
  }

  // ---- time --------------------------------------------------------------------------------

  /** A token that is dead at one time is dead at every later time, as long as it only weakens. */
  lemma DeadStaysDead(after: StoredToken, before: StoredToken, earlier: string, now: string)
    requires Weaker(after, before) && !Live(before, earlier) && Text.AtMost(earlier, now)
    ensures !Live(after, now)
  {
    if before.revokedAt.None? && earlier != now {
      Text.LessTransitive(before.expiresAt.value, earlier, now);
    }
  }

  /**
   A stored token that `authenticate` rejects is rejected ever after: in every later state of every
   history, at every later time.
   */
  lemma RejectedStaysRejected(
    cfg: Config, db: Db, reqs: seq<Request>, sha: string, oidc: Option<Claims>, oidc': Option<Claims>,
    earlier: Timestamps.Instant, now: Timestamps.Instant)
    requires earlier.Valid() && now.Valid() && Timestamps.Millis(earlier) <= Timestamps.Millis(now)
    requires FromStatic(cfg.staticTokens, sha) == None && sha in db.tokens
    requires Authenticate(cfg, db, sha, oidc, Timestamps.Format(earlier)).Err?
    ensures Authenticate(cfg, Run(cfg, db, reqs), sha, oidc', Timestamps.Format(now)) == Err(Unauthorized)
  {
    TokensOnlyWeakenInRun(cfg, db, reqs);
    var a, b := Timestamps.Format(earlier), Timestamps.Format(now);
    Timestamps.FormatOrder(earlier, now);
    Timestamps.FormatOrder(now, earlier);
    Text.LessTotal(a, b);
    DeadStaysDead(Run(cfg, db, reqs).tokens[sha], db.tokens[sha], a, b);
  }

  /** What can be redeemed also authenticates; the two differ only at the very instant of expiry. */
  lemma RedeemableIsLive(t: StoredToken, now: string)
    ensures Redeemable(t, now) <==> Live(t, now) && t.expiresAt != Some(now)
  {
    if t.expiresAt.Some? {
      Text.LessTotal(now, t.expiresAt.value);
      Text.LessIrreflexive(now);
      if Text.Less(now, t.expiresAt.value) {
        Text.LessAsymmetric(now, t.expiresAt.value);
      }
    }
  }

  // ---- redeeming an invite --------------------------------------------------------------------

  /**
   A refused redemption changes nothing. An accepted one gives the caller, on each open team of the
   invite, the larger of the role held and the role offered, and touches no other row.
   */
  lemma RedeemRaisesOwnRows(cfg: Config, db: Db, id: Identity, codeLen: nat, sha: string, now: string, team: string, sub: string)
    ensures var step := RedeemStep(cfg, db, id, codeLen, sha, now);
      if step.out.Err? then step.db == db
      else
        sha in db.tokens &&
        var invite := db.tokens[sha];
        RoleRow(step.db, team, sub) ==
          if sub != id.sub || team !in invite.teams || IsArchived(db, team) then RoleRow(db, team, sub)
          else Some(Max(RoleRow(db, team, sub).UnwrapOr(Reader), JoinRole(cfg, db, invite)))
  {
    RedeemOutcome(cfg, db, id, codeLen, sha, now);
    if RedeemAccepted(db, codeLen, sha, now) {
      var teams, role := OpenTeams(db, db.tokens[sha]), JoinRole(cfg, db, db.tokens[sha]);
      Ownership.JoinedRow(db.roles, id.sub, teams, role, Seat(team, sub));
    }
  }

  /**
   After a successful redemption the code is good again at that time only if the caller was
   authenticated with that very invite.
   */
  lemma SpentUnlessOwnCredential(cfg: Config, db: Db, id: Identity, codeLen: nat, sha: string, now: string)
    requires RedeemStep(cfg, db, id, codeLen, sha, now).out.Ok?
    ensures sha in RedeemStep(cfg, db, id, codeLen, sha, now).db.tokens
    ensures Redeemable(RedeemStep(cfg, db, id, codeLen, sha, now).db.tokens[sha], now) <==> id.tokenSha == Some(sha)
  {
    RedeemOutcome(cfg, db, id, codeLen, sha, now);
  }

  /**
   Redeeming the same code again at the same time changes nothing more, whether it is refused because
   the code is spent or goes through because the caller's own credential is that code.
   */
  lemma RedeemingTwiceIsRedeemingOnce(cfg: Config, db: Db, id: Identity, codeLen: nat, sha: string, now: string)
    ensures var once := RedeemStep(cfg, db, id, codeLen, sha, now);
      var twice := RedeemStep(cfg, once.db, id, codeLen, sha, now);
      twice.db == once.db && (twice.out.Ok? <==> once.out.Ok? && id.tokenSha == Some(sha))
  {
    RedeemOutcome(cfg, db, id, codeLen, sha, now);
    var once := RedeemStep(cfg, db, id, codeLen, sha, now);
    RedeemOutcome(cfg, once.db, id, codeLen, sha, now);
    if once.out.Ok? && id.tokenSha == Some(sha) {
      JoiningTwiceIsJoiningOnce(db.roles, id.sub, OpenTeams(db, db.tokens[sha]), JoinRole(cfg, db, db.tokens[sha]));
    }
  }

  lemma JoiningTwiceIsJoiningOnce(roles: map<Seat, Role>, sub: string, teams: set<string>, role: Role)
    ensures JoinedRoles(JoinedRoles(roles, sub, teams, role), sub, teams, role) == JoinedRoles(roles, sub, teams, role)
  {
    var once := JoinedRoles(roles, sub, teams, role);
    var twice := JoinedRoles(once, sub, teams, role);
    forall seat: Seat
      ensures (seat in twice <==> seat in once) && (seat in once ==> twice[seat] == once[seat])
    {
      Ownership.JoinedRow(roles, sub, teams, role, seat);
      Ownership.JoinedRow(once, sub, teams, role, seat);
    }
  }

  /** A revoked token is never redeemed, in any later state of any history. */
  lemma RevokedIsNeverRedeemed(
    cfg: Config, db: Db, sha: string, reqs: seq<Request>, other: Identity, codeLen: nat, later: string)
    requires sha in db.tokens && db.tokens[sha].revokedAt.Some?
    ensures RedeemStep(cfg, Run(cfg, db, reqs), other, codeLen, sha, later) == Step(Run(cfg, db, reqs), Err(Validation))
  {
    TokensOnlyWeakenInRun(cfg, db, reqs);
    RedeemOutcome(cfg, Run(cfg, db, reqs), other, codeLen, sha, later);
  }

  /** A spent code stays spent: nobody redeems it in any later state of any history. */
  lemma SpentForGood(
    cfg: Config, db: Db, id: Identity, codeLen: nat, sha: string, now: string,
    reqs: seq<Request>, other: Identity, codeLen': nat, later: string)
    requires RedeemAccepted(db, codeLen, sha, now) && id.tokenSha != Some(sha)
    ensures RedeemStep(cfg, db, id, codeLen, sha, now).out.Ok?
    ensures var after := RedeemStep(cfg, db, id, codeLen, sha, now).db;
      RedeemStep(cfg, Run(cfg, after, reqs), other, codeLen', sha, later) == Step(Run(cfg, after, reqs), Err(Validation))
  {
    RedeemOutcome(cfg, db, id, codeLen, sha, now);
    var after := RedeemStep(cfg, db, id, codeLen, sha, now).db;
    assert after.tokens[sha] == Revoked(db.tokens[sha], now);
    RevokedIsNeverRedeemed(cfg, after, sha, reqs, other, codeLen', later);
  }
}
