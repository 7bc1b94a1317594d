/**
 Who a caller is and what it may call itself, told from the tables and the credential alone: the
 reference that the lookups of `Auth` and `Access` are measured against.
 */
module Standing {
  import opened Wrappers
  import opened Roles
  import opened State
  import opened Auth
  import opened Access
  import Timestamps
  import Text

  const ROLE_NAMES := ["reader", "writer", "manager", "admin", "owner"]

  /** Manager and everything above it. */
  const LEADERS: set<Role> := {Manager, Admin, Owner}

  // ---- names ---------------------------------------------------------------------------------------

  /** A role is read from its own name only, and the names are listed in the order of the roles. */
  lemma NamesInOrder(s: string, r: Role)
    ensures RoleFromStr(s) == Some(r) <==> s == ROLE_NAMES[r.Rank()]
    ensures RoleToStr(r) == ROLE_NAMES[r.Rank()]
  {
    RoleRoundTrip(r);
  }

  ghost predicate NamesNoRole(name: Option<string>) {
    forall r: Role :: name != Some(RoleToStr(r))
  }

  lemma NameIsRead(name: Option<string>)
    ensures forall r: Role :: PinnedRole(name) == Some(r) <==> name == Some(RoleToStr(r))
    ensures PinnedRole(name) == None <==> NamesNoRole(name)
  {
    forall r: Role ensures PinnedRole(name) == Some(r) <==> name == Some(RoleToStr(r)) {
      if name.Some? {
        NamesInOrder(name.value, r);
      }
    }
  }

  // ---- credentials -----------------------------------------------------------------------------------

  ghost predicate NotStatic(cfg: Config, sha: string) {
    forall i :: 0 <= i < |cfg.staticTokens| ==> cfg.staticTokens[i].sha != sha
  }

  lemma {:induction false} NotStaticFindsNone(tokens: seq<StaticToken>, sha: string)
    requires forall i :: 0 <= i < |tokens| ==> tokens[i].sha != sha
    ensures FromStatic(tokens, sha) == None
  {
    if tokens == [] {
    } else {
      NotStaticFindsNone(tokens[1..], sha);
    }
  }

  lemma {:induction false} FirstStaticCounts(tokens: seq<StaticToken>, sha: string, i: nat)
    requires i < |tokens| && tokens[i].sha == sha && forall j :: 0 <= j < i ==> tokens[j].sha != sha
    ensures FromStatic(tokens, sha) == Some(Identity(tokens[i].sub, tokens[i].teams, PinnedRole(tokens[i].role), None))
  {
    if i > 0 {
      FirstStaticCounts(tokens[1..], sha, i - 1);
    }
  }

  /** The first static token with that digest speaks for the caller, whatever is stored or claimed. */
  lemma StaticCredential(cfg: Config, db: Db, sha: string, oidc: Option<Claims>, now: string, i: nat, r: Role)
    requires i < |cfg.staticTokens| && cfg.staticTokens[i].sha == sha
    requires forall j :: 0 <= j < i ==> cfg.staticTokens[j].sha != sha
    ensures var who, t := Authenticate(cfg, db, sha, oidc, now), cfg.staticTokens[i];
      && who.Ok? && who.value.sub == t.sub && who.value.teams == t.teams && who.value.tokenSha == None
      && (who.value.pinnedRole == Some(r) <==> t.role == Some(ROLE_NAMES[r.Rank()]))
  {
    FirstStaticCounts(cfg.staticTokens, sha, i);
    NameIsRead(cfg.staticTokens[i].role);
    NamesInOrder("", r);
  }

  /** The expiry of a stored token, as a time. */
  ghost predicate Until(t: StoredToken, expiry: Option<Timestamps.Instant>) {
    match expiry
    case None => t.expiresAt == None
    case Some(e) => e.Valid() && t.expiresAt == Some(Timestamps.Format(e))
  }

  lemma ExpiresWhenTold(t: StoredToken, expiry: Option<Timestamps.Instant>, now: Timestamps.Instant)
    requires Until(t, expiry) && now.Valid()
    ensures Live(t, Timestamps.Format(now)) <==>
      t.revokedAt == None && (expiry.Some? ==> Timestamps.Millis(now) <= Timestamps.Millis(expiry.value))
    ensures Redeemable(t, Timestamps.Format(now)) <==>
      t.revokedAt == None && (expiry.Some? ==> Timestamps.Millis(now) < Timestamps.Millis(expiry.value))
  {
    if expiry.Some? {
      Timestamps.FormatOrder(expiry.value, now);
      Timestamps.FormatOrder(now, expiry.value);
    }
  }

  /** A stored token speaks for its holder up to and including the instant it expires, and with its own role. */
  lemma StoredCredential(
    cfg: Config, db: Db, sha: string, oidc: Option<Claims>, expiry: Option<Timestamps.Instant>, now: Timestamps.Instant, r: Role)
    requires NotStatic(cfg, sha) && sha in db.tokens && Until(db.tokens[sha], expiry) && now.Valid()
    ensures var t, who := db.tokens[sha], Authenticate(cfg, db, sha, oidc, Timestamps.Format(now));
      if t.revokedAt == None && (expiry.Some? ==> Timestamps.Millis(now) <= Timestamps.Millis(expiry.value)) then
        && who.Ok? && who.value.sub == t.sub && who.value.teams == t.teams && who.value.tokenSha == Some(sha)
        && (who.value.pinnedRole == Some(r) <==> t.role == Some(ROLE_NAMES[r.Rank()]))
      else who == Err(Unauthorized)
  {
    NotStaticFindsNone(cfg.staticTokens, sha);
    ExpiresWhenTold(db.tokens[sha], expiry, now);
    NameIsRead(db.tokens[sha].role);
    NamesInOrder("", r);
  }

  /** What is neither static nor stored is the provider's to vouch for, without a role. */
  lemma ProvidedCredential(cfg: Config, db: Db, sha: string, oidc: Option<Claims>, now: string)
    requires NotStatic(cfg, sha) && sha !in db.tokens
    ensures Authenticate(cfg, db, sha, oidc, now) ==
      if oidc.Some? then Ok(Identity(oidc.value.sub, oidc.value.teams, None, None)) else Err(Unauthorized)
  {
    NotStaticFindsNone(cfg.staticTokens, sha);
  }

  // ---- the role on a team ----------------------------------------------------------------------------

  /** The role for whoever has none of its own: the organisation's if it names one, else the server's. */
  ghost predicate ByDefault(cfg: Config, db: Db, r: Role) {
    if db.org.Some? && !NamesNoRole(db.org.value.defaultRole)
    then db.org.value.defaultRole == Some(ROLE_NAMES[r.Rank()])
    else r == cfg.defaultRole
  }

  /** A row comes first; without one, on a team of the credential, its pinned role; else the default. */
  ghost predicate HasRole(cfg: Config, db: Db, team: string, id: Identity, r: Role) {
    if Seat(team, id.sub) in db.roles then db.roles[Seat(team, id.sub)] == r
    else if team !in id.teams then false
    else if id.pinnedRole.Some? then id.pinnedRole.value == r
    else ByDefault(cfg, db, r)
  }

  ghost predicate Stranger(db: Db, team: string, id: Identity) {
    Seat(team, id.sub) !in db.roles && team !in id.teams
  }

  /** Nobody owns the team, the organisation leaves it to whoever comes first, and the credential lists it. */
  ghost predicate Unclaimed(db: Db, team: string, id: Identity) {
    && team in id.teams
    && (db.org == None || db.org.value.teamCreation == "bootstrap")
    && forall sub :: Seat(team, sub) in db.roles ==> db.roles[Seat(team, sub)] != Owner
  }

  lemma DefaultIsRead(cfg: Config, db: Db, r: Role)
    ensures EffectiveDefault(Org(db), cfg.defaultRole) == r <==> ByDefault(cfg, db, r)
  {
    NameIsRead(Org(db).defaultRole);
    NamesInOrder("", r);
  }

  lemma ResolvedIsHeld(cfg: Config, db: Db, team: string, id: Identity, r: Role)
    ensures Resolve(cfg, db, team, id) == Some(r) <==> HasRole(cfg, db, team, id, r)
    ensures Resolve(cfg, db, team, id) == None <==> Stranger(db, team, id)
  {
    DefaultIsRead(cfg, db, r);
  }

  lemma UnclaimedIsBootstrap(db: Db, team: string, id: Identity)
    ensures Bootstraps(db, team, id) <==> Unclaimed(db, team, id)
  {
    if Owners(db, team) == {} {
      forall sub | Seat(team, sub) in db.roles ensures db.roles[Seat(team, sub)] != Owner {
        OwnersByRow(db.roles, team, sub);
      }
    } else {
      var sub :| sub in Owners(db, team);
      OwnersByRow(db.roles, team, sub);
    }
  }

  /** Everybody but a stranger has exactly one role. */
  lemma OneRole(cfg: Config, db: Db, team: string, id: Identity) returns (r: Role)
    ensures Stranger(db, team, id) <==> forall q: Role :: !HasRole(cfg, db, team, id, q)
    ensures !Stranger(db, team, id) ==> forall q: Role :: HasRole(cfg, db, team, id, q) <==> q == r
  {
    r := Resolve(cfg, db, team, id).UnwrapOr(Reader);
    forall q: Role ensures HasRole(cfg, db, team, id, q) <==> Resolve(cfg, db, team, id) == Some(q) {
      ResolvedIsHeld(cfg, db, team, id, q);
    }
    ResolvedIsHeld(cfg, db, team, id, r);
  }

  /** What the gate makes of a caller: the state a handler starts from, and the role it may act in. */
  ghost predicate ActsAs(cfg: Config, db: Db, team: string, id: Identity, was: Db, r: Role) {
    if Unclaimed(db, team, id)
    then was == db.(roles := db.roles[Seat(team, id.sub) := Owner]) && r == Owner
    else was == db && HasRole(cfg, db, team, id, r)
  }

  /** The gate lets a caller through in its role, if that ranks high enough, and a stranger never. */
  lemma GateDecides(cfg: Config, db: Db, team: string, id: Identity, min: Role, was: Db, r: Role)
    ensures ActsAs(cfg, db, team, id, was, r) ==>
      EnsureAccess(cfg, db, team, id, min) == Gate(was, if r.Rank() >= min.Rank() then Ok(r) else Err(Forbidden))
    ensures Stranger(db, team, id) ==> EnsureAccess(cfg, db, team, id, min) == Gate(db, Err(Forbidden))
  {
    ResolvedIsHeld(cfg, db, team, id, r);
    UnclaimedIsBootstrap(db, team, id);
  }

  /** Everybody but a stranger acts in one role from one state. */
  lemma OneStanding(cfg: Config, db: Db, team: string, id: Identity) returns (was: Db, r: Role)
    requires !Stranger(db, team, id)
    ensures forall d, q :: ActsAs(cfg, db, team, id, d, q) <==> d == was && q == r
  {
    r := OneRole(cfg, db, team, id);
    was := db;
    if Unclaimed(db, team, id) {
      was, r := db.(roles := db.roles[Seat(team, id.sub) := Owner]), Owner;
    }
  }
}
