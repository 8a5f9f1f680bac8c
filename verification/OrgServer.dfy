/** The membership handlers over an org store, every call of which may fail. A failed
    read never lets a change through, and a handler makes a prefix of its writes. */
module OrgServer {
  import opened Wrappers
  import opened Text
  import opened OrgRules

  class Server {
    var members: Members
    var invites: map<string, Invite>

    /** How many store calls have failed so far. */
    ghost var faults: nat

    ghost function View(): Orgs
      reads this
    {
      Orgs(members, invites)
    }

    // ------------------------------------------------------------------- the store

    method GetOrgMember(org: string, email: string) returns (ok: bool, role: Option<string>)
      modifies this`faults
      ensures faults == if ok then old(faults) else old(faults) + 1
      ensures ok ==> role == RoleOf(members, SeatFor(org, email))
    {
      if * { faults := faults + 1; return false, None; }
      return true, RoleOf(members, SeatFor(org, email));
    }

    method CountOrgOwners(org: string) returns (ok: bool, n: nat)
      modifies this`faults
      ensures faults == if ok then old(faults) else old(faults) + 1
      ensures ok ==> n == |OwnerSeats(members, org)|
    {
      if * { faults := faults + 1; return false, 0; }
      return true, |OwnerSeats(members, org)|;
    }

    method CountOrgAdmins(org: string) returns (ok: bool, n: nat)
      modifies this`faults
      ensures faults == if ok then old(faults) else old(faults) + 1
      ensures ok ==> n == |AdminSeats(members, org)|
    {
      if * { faults := faults + 1; return false, 0; }
      return true, |AdminSeats(members, org)|;
    }

    /** One write was made, or (on failure) none. */
    twostate predicate Wrote(w: Write, ok: bool)
      reads this
    {
      && View() == (if ok then Apply(old(View()), w) else old(View()))
      && faults == (if ok then old(faults) else old(faults) + 1)
    }

    method AddOrgMember(org: string, email: string, role: string) returns (ok: bool)
      modifies this
      ensures Wrote(PutMember(SeatFor(org, email), role), ok)
    {
      if * { faults := faults + 1; return false; }
      members := members[SeatFor(org, email) := if role == "" then EDITOR else role];
      return true;
    }

    method RemoveOrgMember(org: string, email: string) returns (ok: bool)
      modifies this
      ensures Wrote(DropMember(SeatFor(org, email)), ok)
    {
      if * { faults := faults + 1; return false; }
      members := members - {SeatFor(org, email)};
      return true;
    }

    method PutInvitation(token: string, inv: Invite) returns (ok: bool)
      modifies this
      ensures Wrote(PutInvite(token, inv), ok)
    {
      if * { faults := faults + 1; return false; }
      invites := invites[token := inv];
      return true;
    }

    method SetInvitationStatus(token: string, status: Status) returns (ok: bool)
      modifies this
      ensures Wrote(SetStatus(token, status), ok)
    {
      if * { faults := faults + 1; return false; }
      if token in invites { invites := invites[token := invites[token].(status := status)]; }
      return true;
    }

    // --------------------------------------------------------------- the guards

    /** Fails closed. */
    method CallerIsOrgOwner(c: Caller, org: string) returns (yes: bool)
      modifies this`faults
      ensures faults >= old(faults)
      ensures yes ==> OwnerAuthority(members, c, org)
      ensures faults == old(faults) ==> (yes <==> OwnerAuthority(members, c, org))
    {
      if c.admin { return true; }
      if c.user.None? { return false; }
      var ok, role := GetOrgMember(org, c.user.value.email);
      FoldTwice(c.user.value.email);
      return ok && role == Some(OWNER);
    }

    /** Fails closed. */
    method RequireOrgAdmin(c: Caller, org: string) returns (yes: bool)
      modifies this`faults
      ensures faults >= old(faults)
      ensures yes ==> AdminAuthority(members, c, org)
      ensures faults == old(faults) ==> (yes <==> AdminAuthority(members, c, org))
    {
      if c.admin { return true; }
      if c.user.None? { return c.subject != "" && c.org == org; }
      if AtLeast(NormalizeSystemRole(c.user.value.systemRole), EDITOR) { return true; }
      var ok, role := GetOrgMember(org, c.user.value.email);
      return ok && role.Some? && AtLeast(role.value, ADMIN);
    }

    /** Fails closed: a count that cannot be read refuses the change. */
    method GuardLastPrivileged(org: string, from: string, to: string) returns (r: Reply)
      modifies this`faults
      ensures faults >= old(faults) && r in {Ok, Conflict, Failed}
      ensures r == Ok ==> Guard(members, org, from, to)
      ensures faults == old(faults) ==> r == if Guard(members, org, from, to) then Ok else Conflict
    {
      if from == OWNER && !AtLeast(to, OWNER) {
        var ok, n := CountOrgOwners(org);
        if !ok { return Failed; }
        if n <= 1 { return Conflict; }
      }
      if from != OWNER && AtLeast(from, ADMIN) && !AtLeast(to, ADMIN) {
        var ok, n := CountOrgAdmins(org);
        if !ok { return Failed; }
        if n <= 1 { return Conflict; }
      }
      return Ok;
    }

    /** The ownership check and the guards shared by add, patch and remove. */
    method CheckRoleChange(c: Caller, org: string, from: Option<string>, to: string) returns (r: Reply)
      modifies this`faults
      ensures faults >= old(faults)
      ensures r == Ok ==> RoleChange(members, c, org, from, to) == Ok
      ensures faults == old(faults) ==> r == RoleChange(members, c, org, from, to)
    {
      hide OwnerAuthority, Guard;
      if to == OWNER || from == Some(OWNER) {
        var yes := CallerIsOrgOwner(c, org);
        if !yes { return Forbidden; }
      }
      if from.Some? {
        r := GuardLastPrivileged(org, from.value, to);
        return r;
      }
      return Ok;
    }

    // ------------------------------------------------------------- the handlers

    /** The handler made the first `cut` writes of the request; it says Ok only when it
        made them all and the request is allowed, and without failures it answers as the
        rules do. */
    twostate predicate Handled(c: Caller, req: Request, now: int, r: Reply, cut: nat)
      reads this
    {
      var st := old(View());
      var ws := Writes(st, c, req, now);
      && cut <= |ws| && View() == Replay(st, ws, cut)
      && faults >= old(faults)
      && (r == Ok ==> Answer(st, c, req, now) == Ok && cut == |ws|)
      && (faults == old(faults) ==> r == Answer(st, c, req, now) && cut == |ws|)
    }

    method HandleAddMember(c: Caller, org: string, email: string, role: string, now: int)
      returns (r: Reply, ghost cut: nat)
      modifies this
      ensures Handled(c, Add(org, email, role), now, r, cut)
    {
      hide AdminAuthority, RoleChange, Apply, Fold, Replay;
      cut := 0;
      Replays(View(), Writes(View(), c, Add(org, email, role), now));
      var allowed := RequireOrgAdmin(c, org);
      if !allowed { return Forbidden, 0; }
      var e := Fold(email);
      if e == "" { return BadRequest, 0; }
      var to := VIEWER;
      if TrimSpace(role) != "" {
        to := NormalizeLegacyRole(role);
        if to == "" { return BadRequest, 0; }
      }
      FoldTwice(email);
      var found, from := GetOrgMember(org, e);
      if !found { return Failed, 0; }
      r := CheckRoleChange(c, org, from, to);
      if r != Ok { return r, 0; }
      var added := AddOrgMember(org, e, to);
      if !added { return Failed, 0; }
      return Ok, 1;
    }

    method HandlePatchMember(c: Caller, org: string, rawEmail: string, newRole: Option<string>, now: int)
      returns (r: Reply, ghost cut: nat)
      modifies this
      ensures Handled(c, Patch(org, rawEmail, newRole), now, r, cut)
    {
      hide AdminAuthority, RoleChange, Apply, Fold, NormalizeLegacyRole, Replay;
      cut := 0;
      Replays(View(), Writes(View(), c, Patch(org, rawEmail, newRole), now));
      var email := Lower(rawEmail);
      var allowed := RequireOrgAdmin(c, org);
      if !allowed { return Forbidden, 0; }
      var found, from := GetOrgMember(org, email);
      if !found { return Failed, 0; }
      if from.None? { return NotFound, 0; }
      if newRole.None? { return Ok, 0; }
      var to := NormalizeLegacyRole(newRole.value);
      if to == "" { return BadRequest, 0; }
      r := CheckRoleChange(c, org, from, to);
      if r != Ok { return r, 0; }
      var put := AddOrgMember(org, email, to);
      if !put { return Failed, 0; }
      return Ok, 1;
    }

    method HandleRemoveMember(c: Caller, org: string, rawEmail: string, now: int)
      returns (r: Reply, ghost cut: nat)
      modifies this
      ensures Handled(c, Remove(org, rawEmail), now, r, cut)
    {
      hide AdminAuthority, RoleChange, Apply, Fold, Replay;
      cut := 0;
      Replays(View(), Writes(View(), c, Remove(org, rawEmail), now));
      var email := Lower(rawEmail);
      var allowed := RequireOrgAdmin(c, org);
      if !allowed { return Forbidden, 0; }
      var found, from := GetOrgMember(org, email);
      if !found { return Failed, 0; }
      if from.None? { return NotFound, 0; }
      r := CheckRoleChange(c, org, from, "");
      if r != Ok { return r, 0; }
      var dropped := RemoveOrgMember(org, email);
      if !dropped { return Failed, 0; }
      return Ok, 1;
    }

    method HandleLeaveOrg(c: Caller, org: string, now: int) returns (r: Reply, ghost cut: nat)
      modifies this
      ensures Handled(c, Leave(org), now, r, cut)
    {
      hide Guard, Apply, Fold, NormalizeRole, Replay;
      cut := 0;
      Replays(View(), Writes(View(), c, Leave(org), now));
      if c.user.None? { return Forbidden, 0; }
      var email := Fold(c.user.value.email);
      FoldTwice(c.user.value.email);
      var found, from := GetOrgMember(org, email);
      if !found { return Failed, 0; }
      if from.None? { return NotFound, 0; }
      r := GuardLastPrivileged(org, from.value, "");
      if r != Ok { return r, 0; }
      var dropped := RemoveOrgMember(org, email);
      if !dropped { return Failed, 0; }
      return Ok, 1;
    }

    method HandleCreateInvitation(c: Caller, org: string, email: string, role: string, expires: int,
                                  token: string, now: int) returns (r: Reply, ghost cut: nat)
      modifies this
      ensures Handled(c, Invitation(org, email, role, expires, token), now, r, cut)
    {
      hide AdminAuthority, Apply, Fold, InviteRole, Replay;
      cut := 0;
      Replays(View(), Writes(View(), c, Invitation(org, email, role, expires, token), now));
      var allowed := RequireOrgAdmin(c, org);
      if !allowed { return Forbidden, 0; }
      var e := Fold(email);
      if e == "" { return BadRequest, 0; }
      var granted := InviteRole(role);
      if granted.None? { return if Fold(role) == OWNER then Forbidden else BadRequest, 0; }
      if token in invites { return Failed, 0; }
      var inv := Invite(org, e, granted.value, Pending, if expires == 0 then now + INVITE_TTL else expires);
      var put := PutInvitation(token, inv);
      if !put { return Failed, 0; }
      return Ok, 1;
    }

    /** The checks common to accept and decline; a lapsed invitation is retired, best
        effort. */
    method ResolvePendingInvite(c: Caller, token: string, now: int) returns (r: Reply, ghost cut: nat)
      modifies this
      ensures r == Ok ==> Respond(old(View()), c, token, now) == Ok && View() == old(View())
      ensures var ws := Retire(old(View()), token, Respond(old(View()), c, token, now));
              && cut <= |ws| && View() == Replay(old(View()), ws, cut)
              && faults >= old(faults)
              && (faults == old(faults) ==> r == Respond(old(View()), c, token, now) && cut == |ws|)
    {
      hide Apply, Fold, Replay;
      cut := 0;
      Replays(View(), Retire(View(), token, Respond(View(), c, token, now)));
      if c.user.None? { return Forbidden, 0; }
      if TrimSpace(token) == "" { return BadRequest, 0; }
      if * { faults := faults + 1; return Failed, 0; }
      if token !in invites { return NotFound, 0; }
      var inv := invites[token];
      if Lapsed(inv, now) {
        if inv.status == Pending {
          var marked := SetInvitationStatus(token, Expired);
          cut := if marked then 1 else 0;
        }
        return Gone, cut;
      }
      if inv.status != Pending { return Conflict, 0; }
      if Fold(c.user.value.email) != inv.email { return Forbidden, 0; }
      return Ok, 0;
    }

    /** The membership is written before the invitation is marked. */
    method AcceptInvitation(c: Caller, token: string, now: int) returns (r: Reply, ghost cut: nat)
      modifies this
      ensures Handled(c, Accept(token), now, r, cut)
    {
      hide Apply, Fold, Lapsed, Replay;
      Replays(View(), Writes(View(), c, Accept(token), now));
      Replays(View(), Retire(View(), token, Respond(View(), c, token, now)));
      r, cut := ResolvePendingInvite(c, token, now);
      if r != Ok { return; }
      var inv, email := invites[token], Fold(c.user.value.email);
      FoldTwice(c.user.value.email);
      var added := AddOrgMember(inv.org, email, inv.role);
      if !added { return Failed, 0; }
      var marked := SetInvitationStatus(token, Accepted);
      if !marked { return Failed, 1; }
      return Ok, 2;
    }

    method DeclineInvitation(c: Caller, token: string, now: int) returns (r: Reply, ghost cut: nat)
      modifies this
      ensures Handled(c, Decline(token), now, r, cut)
    {
      hide Apply, Fold, Lapsed, Replay;
      Replays(View(), Writes(View(), c, Decline(token), now));
      Replays(View(), Retire(View(), token, Respond(View(), c, token, now)));
      r, cut := ResolvePendingInvite(c, token, now);
      if r != Ok { return; }
      var marked := SetInvitationStatus(token, Declined);
      if !marked { return Failed, 0; }
      return Ok, 1;
    }
  }

  lemma Replays(st: Orgs, ws: seq<Write>)
    ensures Replay(st, ws, 0) == st
    ensures |ws| >= 1 ==> Replay(st, ws, 1) == Apply(st, ws[0])
    ensures |ws| >= 2 ==> Replay(st, ws, 2) == Apply(Apply(st, ws[0]), ws[1])
  {
    if |ws| >= 1 { assert Replay(st, ws, 1) == Apply(st, ws[0]); }
  }
}
