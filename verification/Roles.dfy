/** The five roles of a team, strictly ordered, and the rules that compare two of them. */
module Roles {
  import opened Wrappers

  datatype Role = Reader | Writer | Manager | Admin | Owner {
    function Rank(): nat {
      match this
      case Reader => 0
      case Writer => 1
      case Manager => 2
      case Admin => 3
      case Owner => 4
    }

    predicate AtLeast(other: Role) {
      Rank() >= other.Rank()
    }
  }

  function Max(a: Role, b: Role): Role {
    if a.AtLeast(b) then a else b
  }

  function RoleToStr(r: Role): string {
    match r
    case Reader => "reader"
    case Writer => "writer"
    case Manager => "manager"
    case Admin => "admin"
    case Owner => "owner"
  }

  function RoleFromStr(s: string): Option<Role> {
    if s == "reader" then Some(Reader)
    else if s == "writer" then Some(Writer)
    else if s == "manager" then Some(Manager)
    else if s == "admin" then Some(Admin)
    else if s == "owner" then Some(Owner)
    else None
  }

  lemma RoleRoundTrip(r: Role)
    ensures RoleFromStr(RoleToStr(r)) == Some(r)
  {
    match r
    case Reader =>
    case Writer => assert "writer"[0] != "reader"[0];
    case Manager => assert "manager"[0] != "reader"[0] && "manager"[0] != "writer"[0];
    case Admin => assert "admin"[0] != "reader"[0] && "admin"[0] != "writer"[0] && "admin"[0] != "manager"[0];
    case Owner =>
      assert "owner"[0] != "reader"[0] && "owner"[0] != "writer"[0] && "owner"[0] != "manager"[0] && "owner"[0] != "admin"[0];
  }

  /** May `caller` give or take `wanted` on a target that holds `current`? */
  predicate MayAdminister(caller: Role, current: Role, wanted: Role) {
    match caller
    case Owner => true
    case Admin => Manager.AtLeast(current) && Manager.AtLeast(wanted)
    case Manager => Writer.AtLeast(current) && Writer.AtLeast(wanted)
    case _ => false
  }

  /** The highest role a caller may pin on an invite. */
  function InviteCeiling(caller: Role): Role {
    match caller
    case Owner => Admin
    case Admin => Manager
    case _ => Writer
  }

  /**
   The ceilings are safe: whatever a caller may pin on an invite is strictly below the caller's
   own role, except for a writer or reader (who never reach an invite), and below Owner always.
   */
  lemma CeilingBelowCaller(caller: Role, pinned: Role)
    requires caller.AtLeast(Manager) && InviteCeiling(caller).AtLeast(pinned)
    ensures pinned.Rank() < caller.Rank() && pinned != Owner
    ensures MayAdminister(caller, Reader, pinned)
  {
  }
}
