/** What every run of membership requests keeps: organisations do not lose their last
    owner, and nobody but an owner or a system admin changes who the owners are. */
module OrgTheorems {
  import opened Wrappers
  import opened OrgRules
  import opened OrgMeaning
  import Text

  /** Members who act with the owner role, however the role was spelled when stored. */
  function Owners(ms: Members, org: string): set<Seat>
  {
    set s | s in ms && s.org == org && Fold(ms[s]) == "owner"
  }

  lemma OwnersAre(ms: Members, org: string)
    ensures forall s :: s in Owners(ms, org) <==> s in ms && s.org == org && IsOwner(ms, s)
  {
    hide Fold, NormalizeRole;
    forall s | s in ms ensures NormalizeRole(ms[s]) == OWNER <==> Fold(ms[s]) == "owner" { RoleWord(ms[s]); }
  }

  /** No invitation carries the owner role, in any spelling. */
  ghost predicate InvitesBelowOwner(st: Orgs)
  {
    forall t :: t in st.invites ==> Fold(st.invites[t].role) != "owner"
  }

  /** A system admin, or a human with an owner's seat in the organisation. */
  predicate Privileged(ms: Members, c: Caller, org: string)
  {
    c.admin || (c.user.Some? && SeatFor(org, c.user.value.email) in Owners(ms, org))
  }

  lemma PrivilegedIs(ms: Members, c: Caller, org: string)
    ensures Privileged(ms, c, org) <==> OwnerAuthority(ms, c, org)
  {
    hide Fold, NormalizeRole;
    OwnersAre(ms, org);
  }

  /** A request and how many of its writes were made. */
  datatype Move = Move(caller: Caller, req: Request, now: int, cut: nat)

  function After(st: Orgs, m: Move): Orgs
  {
    var ws := Writes(st, m.caller, m.req, m.now);
    Replay(st, ws, if m.cut <= |ws| then m.cut else |ws|)
  }

  /** The membership write a move makes, if any: it is the first one. */
  function MemberWrite(st: Orgs, m: Move): (r: Option<Write>)
    ensures r.Some? ==> r.value.PutMember? || r.value.DropMember?
  {
    var ws := Writes(st, m.caller, m.req, m.now);
    if m.cut > 0 && ws != [] && (ws[0].PutMember? || ws[0].DropMember?) then Some(ws[0]) else None
  }

  lemma MembersAfter(st: Orgs, m: Move)
    ensures After(st, m).members ==
            (match MemberWrite(st, m) case None => st.members case Some(w) => Apply(st, w).members)
  {
    hide Writes;
    WritesShape(st, m);
    var ws := Writes(st, m.caller, m.req, m.now);
    if |ws| >= 1 { assert Replay(st, ws, 1) == Apply(st, ws[0]); }
  }

  lemma WritesShape(st: Orgs, m: Move)
    ensures var ws := Writes(st, m.caller, m.req, m.now);
            && |ws| <= 2 && (|ws| == 2 ==> ws[1].SetStatus?)
            && (|ws| > 0 && ws[0].PutInvite? ==> Fold(ws[0].invite.role) != "owner")
  {
    hide AdminAuthority, RoleChange, Guard, Fold, NormalizeRole, InviteRole, Respond;
    if m.req.Invitation? {
      InviteRoleBelowOwner(m.req.role);
      if InviteRole(m.req.role).Some? { RoleWord(InviteRole(m.req.role).value); }
    }
  }

  lemma OwnersAfterWrite(st: Orgs, w: Write, org: string)
    requires w.PutMember? || w.DropMember?
    ensures Owners(Apply(st, w).members, org) ==
            if w.PutMember? && w.seat.org == org && NormalizeRole(w.role) == OWNER
            then Owners(st.members, org) + {w.seat} else Owners(st.members, org) - {w.seat}
  {
    hide NormalizeRole, Fold;
    EditorStable();
    OwnersAre(st.members, org);
    OwnersAre(Apply(st, w).members, org);
  }

  lemma EditorStable()
    ensures NormalizeRole(EDITOR) == EDITOR && NormalizeRole("") == VIEWER
  {
    hide Fold;
    FoldOf(EDITOR);
    FoldOf("");
  }

  /** The guard counts a subset of the owners. */
  lemma CountedOwners(ms: Members, org: string)
    ensures OwnerSeats(ms, org) <= Owners(ms, org)
  {
    hide Fold;
    FoldOf(OWNER);
  }

  /** A guarded demotion or removal leaves an owner. */
  lemma GuardLeavesOwner(ms: Members, org: string, seat: Seat, to: string)
    requires IsOwner(ms, seat) && Guard(ms, org, OWNER, to) && !AtLeast(to, OWNER)
    ensures Owners(ms, org) - {seat} != {}
  {
    hide NormalizeRole, OwnerSeats;
    CountedOwners(ms, org);
    var counted := OwnerSeats(ms, org);
    if counted - {seat} == {} {
      assert counted <= {seat};
      Smaller(counted, {seat});
    }
    var s :| s in counted - {seat};
    assert s in Owners(ms, org) - {seat};
  }

  lemma {:induction false} Smaller(a: set<Seat>, b: set<Seat>)
    requires a <= b
    ensures |a| <= |b|
    decreases |a|
  {
    if a != {} {
      var x :| x in a;
      Smaller(a - {x}, b - {x});
    }
  }

  /** The member write is one that RoleChange, the leave guard or an invitation allowed. */
  lemma WriteIsAllowed(st: Orgs, m: Move)
    requires MemberWrite(st, m).Some?
    ensures var w := MemberWrite(st, m).value;
            var to := if w.PutMember? then w.role else "";
            if m.req.Accept? then
              && m.req.token in st.invites
              && w == PutMember(Seat(st.invites[m.req.token].org, st.invites[m.req.token].email), st.invites[m.req.token].role)
              && m.caller.user.Some? && Fold(m.caller.user.value.email) == w.seat.email
            else if m.req.Leave? then
              && m.caller.user.Some? && w == DropMember(SeatFor(w.seat.org, m.caller.user.value.email))
              && w.seat in st.members && Guard(st.members, w.seat.org, NormalizeRole(st.members[w.seat]), "")
            else
              && RoleChange(st.members, m.caller, w.seat.org, RoleOf(st.members, w.seat), to) == Ok
              && to == (if w.PutMember? then NormalizeRole(to) else "")
              && (w.DropMember? ==> w.seat in st.members)
  {
    hide RoleChange, Guard, AdminAuthority, Fold, NormalizeRole, NormalizeLegacyRole;
    match m.req
    case Add(org, email, role) =>
      AddedRoleStable(role);
    case Patch(org, email, newRole) =>
      if newRole.Some? { RolesAreStable(newRole.value); }
    case _ =>
  }

  lemma AddedRoleStable(role: string)
    ensures AddedRole(role) != "" ==> NormalizeRole(AddedRole(role)) == AddedRole(role)
  {
    hide NormalizeLegacyRole;
    RolesAreStable(role);
    ViewerStable();
  }

  lemma ViewerStable()
    ensures NormalizeRole(VIEWER) == VIEWER
  {
    hide Fold;
    FoldOf(VIEWER);
  }

  // ------------------------------------------------------------------- one request

  /** A human accepts a pending, unexpired invitation addressed to them, and the first
      write of it is made. */
  predicate Accepts(st: Orgs, m: Move)
  {
    && m.req.Accept? && m.cut > 0 && m.caller.user.Some? && Text.TrimSpace(m.req.token) != ""
    && m.req.token in st.invites
    && var inv := st.invites[m.req.token];
       !Lapsed(inv, m.now) && inv.status == Pending && inv.email == Fold(m.caller.user.value.email)
  }

  function InvitedSeat(st: Orgs, token: string): Seat
    requires token in st.invites
  {
    Seat(st.invites[token].org, st.invites[token].email)
  }

  lemma AcceptWrites(st: Orgs, m: Move)
    requires m.req.Accept?
    ensures MemberWrite(st, m) ==
            if Accepts(st, m) then Some(PutMember(InvitedSeat(st, m.req.token), st.invites[m.req.token].role)) else None
  {
    hide Fold, Lapsed, Text.TrimSpace;
  }

  /** The only owner accepts an invitation to the organisation. */
  predicate SoleOwnerAccepts(st: Orgs, m: Move, org: string)
  {
    Accepts(st, m) && Owners(st.members, org) == {InvitedSeat(st, m.req.token)}
  }

  /** A request leaves an organisation without an owner exactly when its only owner
      accepts an invitation: acceptance writes the invited role without the guard. */
  lemma LosesLastOwner(st: Orgs, m: Move, org: string)
    requires InvitesBelowOwner(st) && Owners(st.members, org) != {}
    ensures Owners(After(st, m).members, org) == {} <==> SoleOwnerAccepts(st, m, org)
  {
    hide After, MemberWrite, Apply, RoleChange, Guard, Fold, NormalizeRole, Accepts;
    MembersAfter(st, m);
    if m.req.Accept? { AcceptWrites(st, m); } else { NotAccepted(st, m); }
    if MemberWrite(st, m).Some? {
      var w := MemberWrite(st, m).value;
      WriteIsAllowed(st, m);
      OwnersAfterWrite(st, w, org);
      OwnersAre(st.members, org);
      if m.req.Accept? {
        RoleWord(st.invites[m.req.token].role);
        assert Owners(st.members, org) - {w.seat} == {} <==> Owners(st.members, org) == {w.seat};
      } else if w.seat in Owners(st.members, org) {
        GuardedWrite(st, m);
      }
    }
  }

  lemma NotAccepted(st: Orgs, m: Move)
    ensures Accepts(st, m) ==> m.req.Accept?
  {
  }

  lemma GuardedWrite(st: Orgs, m: Move)
    requires MemberWrite(st, m).Some? && !m.req.Accept? && IsOwner(st.members, MemberWrite(st, m).value.seat)
    ensures var w := MemberWrite(st, m).value;
            (w.PutMember? && w.role == NormalizeRole(w.role) == OWNER) || Owners(st.members, w.seat.org) - {w.seat} != {}
  {
    hide MemberWrite, Fold, NormalizeRole, Guard;
    var w := MemberWrite(st, m).value;
    WriteIsAllowed(st, m);
    var to := if w.PutMember? then w.role else "";
    if to != OWNER { GuardLeavesOwner(st.members, w.seat.org, w.seat, to); }
  }

  /** Whoever changes the set of owners is one of them, or a system admin. */
  lemma OwnerChangeIsAuthorised(st: Orgs, m: Move, org: string)
    requires InvitesBelowOwner(st)
    ensures Owners(After(st, m).members, org) != Owners(st.members, org) ==>
              m.caller.admin ||
              (m.caller.user.Some? && SeatFor(org, m.caller.user.value.email) in Owners(st.members, org))
  {
    hide After, MemberWrite, Apply, Guard, Fold, NormalizeRole, Owners;
    MembersAfter(st, m);
    PrivilegedIs(st.members, m.caller, org);
    OwnersAre(st.members, org);
    if MemberWrite(st, m).Some? {
      if m.req.Accept? && m.req.token in st.invites { RoleWord(st.invites[m.req.token].role); }
      WriteIsAllowed(st, m);
      OwnersAfterWrite(st, MemberWrite(st, m).value, org);
    }
  }

  /** A change of owners is to one member: the one the request names. */
  lemma OneOwnerAtATime(st: Orgs, m: Move, org: string)
    requires InvitesBelowOwner(st)
    ensures var was, now := Owners(st.members, org), Owners(After(st, m).members, org);
            now != was ==>
              && MemberWrite(st, m).Some?
              && (now == was + {MemberWrite(st, m).value.seat} || now == was - {MemberWrite(st, m).value.seat})
    ensures m.req.Accept? ==> Owners(After(st, m).members, org) <= Owners(st.members, org)
  {
    hide After, MemberWrite, Apply, Fold, NormalizeRole, Owners;
    MembersAfter(st, m);
    OwnersAre(st.members, org);
    if MemberWrite(st, m).Some? {
      if m.req.Accept? && m.req.token in st.invites { RoleWord(st.invites[m.req.token].role); }
      WriteIsAllowed(st, m);
      OwnersAfterWrite(st, MemberWrite(st, m).value, org);
    }
  }

  /** Whoever changes a membership manages members there, or changes their own: by
      leaving, or by accepting a pending, unexpired invitation addressed to them. */
  lemma MemberChangeIsAuthorised(st: Orgs, m: Move)
    requires MemberWrite(st, m).Some?
    ensures var seat := MemberWrite(st, m).value.seat;
            || Manages(st.members, m.caller, seat.org)
            || (&& (m.req.Leave? || m.req.Accept?)
                && m.caller.user.Some? && seat == SeatFor(seat.org, m.caller.user.value.email)
                && (m.req.Accept? ==>
                      && m.req.token in st.invites && !Lapsed(st.invites[m.req.token], m.now)
                      && st.invites[m.req.token].status == Pending
                      && st.invites[m.req.token].email == seat.email && st.invites[m.req.token].org == seat.org))
  {
    hide AdminAuthority, RoleChange, Guard, Fold, NormalizeRole, NormalizeLegacyRole, Manages;
    ManagesIs(st.members, m.caller, MemberWrite(st, m).value.seat.org);
  }

  lemma AdminsAfterWrite(st: Orgs, w: Write, org: string)
    requires w.PutMember? || w.DropMember?
    ensures AdminSeats(Apply(st, w).members, org) ==
            if w.PutMember? && w.seat.org == org && (w.role == ADMIN || w.role == "org_admin")
            then AdminSeats(st.members, org) + {w.seat} else AdminSeats(st.members, org) - {w.seat}
  {
  }

  /** An owner or system admin makes the member in `seat` an owner, by adding them again or
      by patching their role. */
  predicate MadeOwner(st: Orgs, m: Move, seat: Seat)
  {
    && m.cut > 0
    && match m.req
       case Add(org, email, role) =>
         && Manages(st.members, m.caller, org) && Owns(st.members, m.caller, org)
         && Fold(email) != "" && AddedRole(role) == OWNER && seat == SeatFor(org, email)
       case Patch(org, email, newRole) =>
         && Manages(st.members, m.caller, org) && Owns(st.members, m.caller, org)
         && newRole.Some? && NormalizeLegacyRole(newRole.value) == OWNER && seat == SeatFor(org, Lower(email))
       case _ => false
  }

  lemma OwnerWrites(st: Orgs, m: Move, seat: Seat)
    requires !m.req.Accept? && RoleOf(st.members, seat) == Some(ADMIN)
    ensures MemberWrite(st, m) == Some(PutMember(seat, OWNER)) <==> MadeOwner(st, m, seat)
  {
    hide AdminAuthority, OwnerAuthority, Fold, NormalizeLegacyRole, Respond, Manages, Owns;
    ManagesIs(st.members, m.caller, seat.org);
    OwnsIs(st.members, m.caller, seat.org);
    if m.req.Add? || m.req.Patch? {
      ManagesIs(st.members, m.caller, m.req.org);
      OwnsIs(st.members, m.caller, m.req.org);
    }
  }

  /** The only counted admin accepts an invitation as something else. */
  predicate SoleAdminAccepts(st: Orgs, m: Move, org: string)
  {
    && Accepts(st, m) && AdminSeats(st.members, org) == {InvitedSeat(st, m.req.token)}
    && st.invites[m.req.token].role != ADMIN && st.invites[m.req.token].role != "org_admin"
  }

  /** A request leaves an organisation without a counted admin exactly when its only one is
      made an owner, or accepts an invitation as something else. */
  lemma LosesLastAdmin(st: Orgs, m: Move, org: string)
    requires AdminSeats(st.members, org) != {}
    ensures AdminSeats(After(st, m).members, org) == {} <==>
            || SoleAdminAccepts(st, m, org)
            || exists seat :: AdminSeats(st.members, org) == {seat} && MadeOwner(st, m, seat)
  {
    hide After, MemberWrite, Apply, RoleChange, Guard, Fold, NormalizeRole, AdminSeats, Accepts, MadeOwner;
    MembersAfter(st, m);
    if m.req.Accept? { AcceptWrites(st, m); } else { NotAccepted(st, m); }
    forall seat | AdminSeats(st.members, org) == {seat}
      ensures !m.req.Accept? ==> (MemberWrite(st, m) == Some(PutMember(seat, OWNER)) <==> MadeOwner(st, m, seat))
      ensures m.req.Accept? ==> !MadeOwner(st, m, seat)
    {
      AdminSeatsAre(st.members, org, seat);
      if m.req.Accept? { NotMade(st, m, seat); } else { OwnerWrites(st, m, seat); }
    }
    if MemberWrite(st, m).Some? {
      var w := MemberWrite(st, m).value;
      WriteIsAllowed(st, m);
      AdminsAfterWrite(st, w, org);
      AdminSeatsAre(st.members, org, w.seat);
      if w.seat in AdminSeats(st.members, org) && !m.req.Accept? { GuardedAdmin(st, m); }
      assert AdminSeats(st.members, org) - {w.seat} == {} <==> AdminSeats(st.members, org) == {w.seat};
    }
  }

  lemma NotMade(st: Orgs, m: Move, seat: Seat)
    requires m.req.Accept?
    ensures !MadeOwner(st, m, seat)
  {
  }

  lemma AdminSeatsAre(ms: Members, org: string, seat: Seat)
    ensures seat in AdminSeats(ms, org) ==> seat in ms && seat.org == org && NormalizeRole(ms[seat]) == ADMIN
  {
    hide Fold;
    FoldOf(ADMIN);
    FoldLegacy();
  }

  lemma FoldLegacy()
    ensures Fold("org_admin") == "org_admin"
  {
    assert Text.Trimmed("org_admin");
    assert forall i :: 0 <= i < |"org_admin"| ==> LowerChar("org_admin"[i]) == "org_admin"[i];
    assert Lower("org_admin") == "org_admin";
  }

  lemma GuardedAdmin(st: Orgs, m: Move)
    requires MemberWrite(st, m).Some? && !m.req.Accept?
    requires RoleOf(st.members, MemberWrite(st, m).value.seat) == Some(ADMIN)
    ensures var w := MemberWrite(st, m).value;
            || (w.PutMember? && (w.role == ADMIN || w.role == OWNER))
            || |AdminSeats(st.members, w.seat.org)| > 1
  {
    hide MemberWrite, Fold, NormalizeRole, AdminSeats;
    WriteIsAllowed(st, m);
  }

  /** The organisation a request is about. */
  function TargetOrg(st: Orgs, req: Request): Option<string>
  {
    match req
    case Accept(token) => if token in st.invites then Some(st.invites[token].org) else None
    case Decline(token) => if token in st.invites then Some(st.invites[token].org) else None
    case _ => Some(req.org)
  }

  /** Members of every other organisation are untouched. */
  lemma OtherOrgsUntouched(st: Orgs, m: Move, s: Seat)
    requires TargetOrg(st, m.req) != Some(s.org)
    ensures s in After(st, m).members <==> s in st.members
    ensures s in st.members ==> After(st, m).members[s] == st.members[s]
  {
    hide After, AdminAuthority, RoleChange, Guard, Fold;
    MembersAfter(st, m);
  }

  lemma InviteRoleBelowOwner(raw: string)
    ensures InviteRole(raw).Some? ==> NormalizeRole(InviteRole(raw).value) != OWNER
  {
    hide Fold;
    FoldTwice(raw);
    FoldOf(VIEWER);
    FoldOf(EDITOR);
    FoldOf(ADMIN);
  }

  lemma InviteWrite(st: Orgs, w: Write)
    requires InvitesBelowOwner(st) && (w.PutInvite? ==> Fold(w.invite.role) != "owner")
    ensures InvitesBelowOwner(Apply(st, w))
  {
    hide Fold;
  }

  /** Invitations never carry the owner role, legacy names included. */
  lemma InvitesStayBelowOwner(st: Orgs, m: Move)
    requires InvitesBelowOwner(st)
    ensures InvitesBelowOwner(After(st, m))
  {
    hide Writes, InvitesBelowOwner, Apply, NormalizeRole;
    WritesShape(st, m);
    var ws := Writes(st, m.caller, m.req, m.now);
    if |ws| >= 1 {
      InviteWrite(st, ws[0]);
      assert Replay(st, ws, 1) == Apply(st, ws[0]);
    }
    if |ws| == 2 { InviteWrite(Apply(st, ws[0]), ws[1]); }
  }

  // ----------------------------------------------------------------------- runs

  function End(st: Orgs, run: seq<Move>): Orgs
    decreases |run|
  {
    if run == [] then st else End(After(st, run[0]), run[1..])
  }

  /** An invitation is used once: answered or expired, it stays so whatever is asked, and
      from then on nobody can accept or decline it. */
  lemma {:induction false} InvitationsSettle(st: Orgs, run: seq<Move>, token: string)
    requires token in st.invites && st.invites[token].status != Pending
    ensures var end := End(st, run);
            && token in end.invites && end.invites[token] == st.invites[token]
            && forall c, now :: Answer(end, c, Accept(token), now) != Ok && Answer(end, c, Decline(token), now) != Ok
    decreases |run|
  {
    hide After;
    if run != [] {
      SettledStays(st, run[0], token);
      InvitationsSettle(After(st, run[0]), run[1..], token);
    }
  }

  lemma SettledStays(st: Orgs, m: Move, token: string)
    requires token in st.invites && st.invites[token].status != Pending
    ensures token in After(st, m).invites && After(st, m).invites[token] == st.invites[token]
  {
    hide Writes, Apply;
    WritesShape(st, m);
    var ws := Writes(st, m.caller, m.req, m.now);
    if |ws| >= 1 {
      TouchesPending(st, m, 0);
      WriteSpares(st, ws[0], token);
      assert Replay(st, ws, 1) == Apply(st, ws[0]);
    }
    if |ws| == 2 {
      TouchesPending(st, m, 1);
      WriteSpares(Apply(st, ws[0]), ws[1], token);
      assert Replay(st, ws, 2) == Apply(Apply(st, ws[0]), ws[1]);
    }
  }

  predicate Spares(w: Write, token: string)
  {
    (w.PutInvite? || w.SetStatus?) ==> w.token != token
  }

  lemma WriteSpares(st: Orgs, w: Write, token: string)
    requires Spares(w, token) && token in st.invites
    ensures token in Apply(st, w).invites && Apply(st, w).invites[token] == st.invites[token]
  {
  }

  /** Requests write new invitations and pending ones only. */
  lemma TouchesPending(st: Orgs, m: Move, i: nat)
    requires i < |Writes(st, m.caller, m.req, m.now)|
    ensures forall t :: t in st.invites && st.invites[t].status != Pending ==> Spares(Writes(st, m.caller, m.req, m.now)[i], t)
  {
    hide Answer, Fold, InviteRole;
    if Answer(st, m.caller, m.req, m.now) == Ok { AnswersPending(st, m); }
  }

  lemma AnswersPending(st: Orgs, m: Move)
    requires Answer(st, m.caller, m.req, m.now) == Ok
    ensures m.req.Invitation? ==> m.req.token !in st.invites
    ensures m.req.Accept? || m.req.Decline? ==> m.req.token in st.invites && st.invites[m.req.token].status == Pending
  {
    hide AdminAuthority, RoleChange, Guard, Fold, InviteRole, Lapsed;
  }

  /** Accepting in full settles the invitation. */
  lemma AcceptanceSettles(st: Orgs, m: Move)
    requires m.req.Accept? && Answer(st, m.caller, m.req, m.now) == Ok && m.cut >= 2
    ensures m.req.token in After(st, m).invites && After(st, m).invites[m.req.token].status == Accepted
  {
    hide Fold, Lapsed;
    var ws := Writes(st, m.caller, m.req, m.now);
    assert Replay(st, ws, 1) == Apply(st, ws[0]);
    assert Replay(st, ws, 2) == Apply(Apply(st, ws[0]), ws[1]);
  }

  /** At no point does the sole owner of `org` accept an invitation to it. */
  predicate SoleOwnerStays(st: Orgs, run: seq<Move>, org: string)
    decreases |run|
  {
    run == [] || (!SoleOwnerAccepts(st, run[0], org) && SoleOwnerStays(After(st, run[0]), run[1..], org))
  }

  /** An organisation with an owner has one in every state a run can reach, whichever
      requests fail part way, unless its sole owner accepts an invitation to it. */
  lemma {:induction false} AlwaysAnOwner(st: Orgs, run: seq<Move>, org: string)
    requires InvitesBelowOwner(st) && Owners(st.members, org) != {}
    requires SoleOwnerStays(st, run, org)
    ensures Owners(End(st, run).members, org) != {} && InvitesBelowOwner(End(st, run))
    decreases |run|
  {
    hide After, Owners, InvitesBelowOwner, SoleOwnerAccepts;
    if run != [] {
      LosesLastOwner(st, run[0], org);
      InvitesStayBelowOwner(st, run[0]);
      AlwaysAnOwner(After(st, run[0]), run[1..], org);
    }
  }

  /** At no point does an owner of the invitation's organisation accept. */
  predicate OwnersDoNotAccept(st: Orgs, run: seq<Move>, org: string)
    decreases |run|
  {
    run == [] ||
    (&& (Accepts(st, run[0]) ==> InvitedSeat(st, run[0].req.token) !in Owners(st.members, org))
     && OwnersDoNotAccept(After(st, run[0]), run[1..], org))
  }

  lemma {:induction false} NonOwnersMayAccept(st: Orgs, run: seq<Move>, org: string)
    requires OwnersDoNotAccept(st, run, org)
    ensures SoleOwnerStays(st, run, org)
    decreases |run|
  {
    hide After, Owners, Accepts;
    if run != [] { NonOwnersMayAccept(After(st, run[0]), run[1..], org); }
  }

  /** No caller of the run is an owner or a system admin when it calls. */
  predicate Unprivileged(st: Orgs, run: seq<Move>, org: string)
    decreases |run|
  {
    run == [] ||
    (!Privileged(st.members, run[0].caller, org) && Unprivileged(After(st, run[0]), run[1..], org))
  }

  /** Ownership cannot be seized: without an owner or a system admin among the callers,
      no run changes who the owners are. */
  lemma {:induction false} OwnershipCannotBeSeized(st: Orgs, run: seq<Move>, org: string)
    requires InvitesBelowOwner(st) && Unprivileged(st, run, org)
    ensures Owners(End(st, run).members, org) == Owners(st.members, org)
    decreases |run|
  {
    hide After, Owners, InvitesBelowOwner;
    if run != [] {
      OwnerChangeIsAuthorised(st, run[0], org);
      InvitesStayBelowOwner(st, run[0]);
      OwnershipCannotBeSeized(After(st, run[0]), run[1..], org);
    }
  }

  /** The unguarded path at work: an owner, alone in the organisation, accepts an
      invitation to it as a viewer. */
  lemma LastOwnerDemotesThemselves()
    ensures var a := Seat("o", "a");
            var st := Orgs(map[a := OWNER], map["t" := Invite("o", "a", VIEWER, Pending, 0)]);
            var end := After(st, Move(Caller(false, "u", "", Some(User("a", ""))), Accept("t"), 1, 2));
            InvitesBelowOwner(st) && Owners(st.members, "o") == {a} && Owners(end.members, "o") == {}
  {
    hide Fold;
    var a := Seat("o", "a");
    var st := Orgs(map[a := OWNER], map["t" := Invite("o", "a", VIEWER, Pending, 0)]);
    var m := Move(Caller(false, "u", "", Some(User("a", ""))), Accept("t"), 1, 2);
    FoldOf(VIEWER);
    FoldOf(OWNER);
    FoldA();
    assert Owners(st.members, "o") == {a};
    assert SoleOwnerAccepts(st, m, "o");
    LosesLastOwner(st, m, "o");
  }

  lemma FoldA()
    ensures Fold("a") == "a" && Text.TrimSpace("t") == "t"
  {
    assert Text.Trimmed("a") && Text.Trimmed("t");
    assert Lower("a") == "a";
  }
}
