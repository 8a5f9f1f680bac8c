/** What roles, authority and requests come to in the words that are stored: a second
    account of the rules, in terms of the rows alone, and proved to be the same. */
module OrgMeaning {
  import opened Wrappers
  import opened OrgRules
  import Text

  // ------------------------------------------------------------------------ words

  /** The same letter, or the same ASCII letter in the other case. */
  predicate SameLetter(c: char, d: char)
  {
    c == d || ('A' <= c <= 'Z' && d as int == c as int + 32) || ('A' <= d <= 'Z' && c as int == d as int + 32)
  }

  predicate SameLetters(s: string, t: string)
  {
    |s| == |t| && forall i :: 0 <= i < |s| ==> SameLetter(s[i], t[i])
  }

  /** Emails and roles are the same word when they differ in ASCII case and in the white
      space around them. */
  lemma SameWord(s: string, t: string)
    ensures Fold(s) == Fold(t) <==> SameLetters(Text.TrimSpace(s), Text.TrimSpace(t))
  {
    hide LowerChar, SameLetter, Text.TrimSpace;
    var a, b := Text.TrimSpace(s), Text.TrimSpace(t);
    forall c, d ensures LowerChar(c) == LowerChar(d) <==> SameLetter(c, d) { LetterCase(c, d); }
    if Fold(s) == Fold(t) {
      forall i | 0 <= i < |a| ensures SameLetter(a[i], b[i]) { assert Lower(a)[i] == Lower(b)[i]; }
    }
    if SameLetters(a, b) { assert Lower(a) == Lower(b); }
  }

  lemma LetterCase(c: char, d: char)
    ensures LowerChar(c) == LowerChar(d) <==> SameLetter(c, d)
  {
  }

  /** Each role by its names, old ones included. */
  lemma RoleNames(role: string)
    ensures NormalizeLegacyRole(role) == "owner" <==> Fold(role) == "owner"
    ensures NormalizeLegacyRole(role) == "admin" <==> Fold(role) in {"admin", "org_admin"}
    ensures NormalizeLegacyRole(role) == "editor" <==> Fold(role) in {"editor", "member"}
    ensures NormalizeLegacyRole(role) == "viewer" <==> Fold(role) == "viewer"
    ensures NormalizeRole(role) == if NormalizeLegacyRole(role) == "" then "viewer" else NormalizeLegacyRole(role)
    ensures NormalizeSystemRole(role) == if Fold(role) in {"viewer", "editor", "admin"} then Fold(role) else ""
  {
    hide Fold;
  }

  // -------------------------------------------------------------------- authority

  /** The member's row says `word`, in any spelling. */
  predicate Says(ms: Members, seat: Seat, words: set<string>)
  {
    seat in ms && Fold(ms[seat]) in words
  }

  /** A system admin, or a human whose own row in the organisation says owner. */
  predicate Owns(ms: Members, c: Caller, org: string)
  {
    c.admin || (c.user.Some? && Says(ms, Seat(org, Fold(c.user.value.email)), {"owner"}))
  }

  /** A system admin; an API key of that very organisation; a human whose system role is
      editor or admin; or one whose own row says admin or owner. */
  predicate Manages(ms: Members, c: Caller, org: string)
  {
    || c.admin
    || (c.user.None? && c.subject != "" && c.org == org)
    || (c.user.Some? && Fold(c.user.value.systemRole) in {"editor", "admin"})
    || (c.user.Some? && Says(ms, Seat(org, Fold(c.user.value.email)), {"owner", "admin", "org_admin"}))
  }

  lemma OwnsIs(ms: Members, c: Caller, org: string)
    ensures OwnerAuthority(ms, c, org) <==> Owns(ms, c, org)
  {
    hide Fold, NormalizeRole;
    if c.user.Some? {
      var seat := SeatFor(org, c.user.value.email);
      if seat in ms { RoleWord(ms[seat]); }
    }
  }

  lemma ManagesIs(ms: Members, c: Caller, org: string)
    ensures AdminAuthority(ms, c, org) <==> Manages(ms, c, org)
  {
    hide Fold, NormalizeRole;
    if c.user.Some? {
      var seat := SeatFor(org, c.user.value.email);
      if seat in ms { RoleWord(ms[seat]); }
    }
  }

  lemma RoleWord(role: string)
    ensures NormalizeRole(role) in {OWNER, ADMIN, EDITOR, VIEWER}
    ensures NormalizeRole(role) == OWNER <==> Fold(role) == "owner"
    ensures NormalizeRole(role) == ADMIN <==> Fold(role) in {"admin", "org_admin"}
  {
    hide Fold;
  }

  // --------------------------------------------------------------------- the guard

  /** At least two rows of the organisation hold one of the words, spelled exactly. */
  ghost predicate TwoHold(ms: Members, org: string, words: set<string>)
  {
    exists a, b :: a != b && Holds(ms, org, words, a) && Holds(ms, org, words, b)
  }

  predicate Holds(ms: Members, org: string, words: set<string>, s: Seat)
  {
    s in ms && s.org == org && ms[s] in words
  }

  lemma MoreThanOne(s: set<Seat>)
    ensures |s| > 1 <==> exists a, b :: a in s && b in s && a != b
  {
    if |s| > 1 {
      var a :| a in s;
      assert |s - {a}| == |s| - 1;
      var b :| b in s - {a};
      assert a in s && b in s && a != b;
    }
    if a, b :| a in s && b in s && a != b {
      assert b in s - {a};
      assert |s - {a}| == |s| - 1;
    }
  }

  /** An owner who stops being one leaves another counted owner behind, and an admin who
      becomes less than an admin another counted admin. */
  ghost predicate Spared(ms: Members, seat: Seat, to: string)
  {
    && (Says(ms, seat, {"owner"}) && to != "owner" ==> TwoHold(ms, seat.org, {"owner"}))
    && (Says(ms, seat, {"admin", "org_admin"}) && to !in {"admin", "owner"} ==>
          TwoHold(ms, seat.org, {"admin", "org_admin"}))
  }

  lemma SparedIs(ms: Members, seat: Seat, to: string)
    requires seat in ms && to in {OWNER, ADMIN, EDITOR, VIEWER, ""}
    ensures Guard(ms, seat.org, NormalizeRole(ms[seat]), to) <==> Spared(ms, seat, to)
  {
    hide Fold, NormalizeRole, TwoHold, OwnerSeats, AdminSeats;
    RoleWord(ms[seat]);
    OwnersCounted(ms, seat.org);
    AdminsCounted(ms, seat.org);
  }

  lemma OwnersCounted(ms: Members, org: string)
    ensures |OwnerSeats(ms, org)| > 1 <==> TwoHold(ms, org, {"owner"})
  {
    MoreThanOne(OwnerSeats(ms, org));
    assert forall s :: s in OwnerSeats(ms, org) <==> Holds(ms, org, {"owner"}, s);
  }

  lemma AdminsCounted(ms: Members, org: string)
    ensures |AdminSeats(ms, org)| > 1 <==> TwoHold(ms, org, {"admin", "org_admin"})
  {
    MoreThanOne(AdminSeats(ms, org));
    assert forall s :: s in AdminSeats(ms, org) <==> Holds(ms, org, {"admin", "org_admin"}, s);
  }

  // ------------------------------------------------------------- who may do what

  /** Setting the role in `seat` to `to`, or removing it when `to` is "". */
  ghost predicate MayChange(ms: Members, c: Caller, seat: Seat, to: string)
  {
    && Manages(ms, c, seat.org)
    && (to == "owner" || Says(ms, seat, {"owner"}) ==> Owns(ms, c, seat.org))
    && Spared(ms, seat, to)
  }

  /** The role a request to add asks for, viewer when it names none, "" when it is unknown. */
  function Wanted(role: string): string
  {
    var w := Fold(role);
    if w == "" then "viewer"
    else if w in {"owner", "admin", "editor", "viewer"} then w
    else if w == "org_admin" then "admin"
    else if w == "member" then "editor"
    else ""
  }

  /** An answer to an invitation: by the human it is addressed to, while it is pending and
      has not expired. */
  predicate MayRespond(st: Orgs, c: Caller, token: string, now: int)
  {
    && c.user.Some? && Text.TrimSpace(token) != "" && token in st.invites
    && st.invites[token].status == Pending
    && (st.invites[token].expires == 0 || now <= st.invites[token].expires)
    && st.invites[token].email == Fold(c.user.value.email)
  }

  ghost predicate Permitted(st: Orgs, c: Caller, req: Request, now: int)
  {
    var ms := st.members;
    match req
    case Add(org, email, role) =>
      Fold(email) != "" && Wanted(role) != "" && MayChange(ms, c, Seat(org, Fold(email)), Wanted(role))
    case Patch(org, email, newRole) =>
      var seat := Seat(org, Fold(Lower(email)));
      && Manages(ms, c, org) && seat in ms
      && (newRole.Some? ==> Fold(newRole.value) != "" && Wanted(newRole.value) != "" && MayChange(ms, c, seat, Wanted(newRole.value)))
    case Remove(org, email) =>
      var seat := Seat(org, Fold(Lower(email)));
      seat in ms && MayChange(ms, c, seat, "")
    case Leave(org) =>
      && c.user.Some? && Seat(org, Fold(c.user.value.email)) in ms
      && Spared(ms, Seat(org, Fold(c.user.value.email)), "")
    case Invitation(org, email, role, expires, token) =>
      Manages(ms, c, org) && Fold(email) != "" && Wanted(role) !in {"", "owner"} && token !in st.invites
    case Accept(token) => MayRespond(st, c, token, now)
    case Decline(token) => MayRespond(st, c, token, now)
  }

  lemma WantedIs(role: string)
    ensures AddedRole(role) == Wanted(role)
    ensures NormalizeLegacyRole(role) == if Fold(role) == "" then "" else Wanted(role)
    ensures InviteRole(role) == if Wanted(role) in {"", "owner"} then None else Some(Wanted(role))
    ensures Wanted(role) in {OWNER, ADMIN, EDITOR, VIEWER, ""}
  {
    hide Text.TrimSpace, Lower;
    FoldTwice(role);
    LowerBlank(Text.TrimSpace(role));
  }

  lemma LowerBlank(s: string)
    ensures Lower(s) == "" <==> s == ""
  {
  }

  lemma MayChangeIs(ms: Members, c: Caller, seat: Seat, to: string)
    requires to in {OWNER, ADMIN, EDITOR, VIEWER, ""} && AdminAuthority(ms, c, seat.org)
    ensures RoleChange(ms, c, seat.org, RoleOf(ms, seat), to) == Ok <==> MayChange(ms, c, seat, to)
  {
    hide Fold, NormalizeRole, Guard, Spared, OwnerAuthority, Owns, AdminAuthority, Manages;
    OwnsIs(ms, c, seat.org);
    ManagesIs(ms, c, seat.org);
    if seat in ms {
      RoleWord(ms[seat]);
      SparedIs(ms, seat, to);
    } else {
      NobodySpared(ms, seat, to);
    }
  }

  lemma NobodySpared(ms: Members, seat: Seat, to: string)
    requires seat !in ms
    ensures Spared(ms, seat, to)
  {
  }

  /** A request is answered Ok, when no store call fails, exactly when it is permitted. */
  lemma PermittedExactly(st: Orgs, c: Caller, req: Request, now: int)
    ensures Answer(st, c, req, now) == Ok <==> Permitted(st, c, req, now)
  {
    hide Fold, Lower, NormalizeRole, NormalizeLegacyRole, AdminAuthority, Manages, RoleChange, MayChange, Guard, Spared, Wanted,
      AddedRole, InviteRole, Text.TrimSpace;
    var ms := st.members;
    match req
    case Add(org, email, role) =>
      ManagesIs(ms, c, org);
      WantedIs(role);
      ChangeNeedsManager(ms, c, SeatFor(org, email), Wanted(role));
      if AdminAuthority(ms, c, org) { MayChangeIs(ms, c, SeatFor(org, email), Wanted(role)); }
    case Patch(org, email, newRole) =>
      ManagesIs(ms, c, org);
      if newRole.Some? {
        WantedIs(newRole.value);
        if AdminAuthority(ms, c, org) { MayChangeIs(ms, c, SeatFor(org, Lower(email)), Wanted(newRole.value)); }
      }
    case Remove(org, email) =>
      ManagesIs(ms, c, org);
      ChangeNeedsManager(ms, c, SeatFor(org, Lower(email)), "");
      if AdminAuthority(ms, c, org) { MayChangeIs(ms, c, SeatFor(org, Lower(email)), ""); }
    case Leave(org) =>
      if c.user.Some? && SeatFor(org, c.user.value.email) in ms { SparedIs(ms, SeatFor(org, c.user.value.email), ""); }
    case Invitation(org, email, role, expires, token) =>
      ManagesIs(ms, c, org);
      WantedIs(role);
    case _ =>
  }

  lemma ChangeNeedsManager(ms: Members, c: Caller, seat: Seat, to: string)
    ensures MayChange(ms, c, seat, to) ==> Manages(ms, c, seat.org)
  {
    hide Manages;
  }

  /** What a refusal says: who the caller is comes first, then what is asked for, then
      whether it exists, then ownership, then the guard. */
  ghost function Refusal(st: Orgs, c: Caller, req: Request, now: int): Reply
  {
    var ms := st.members;
    match req
    case Add(org, email, role) =>
      if !Manages(ms, c, org) then Forbidden
      else if Fold(email) == "" || Wanted(role) == "" then BadRequest
      else if Spared(ms, Seat(org, Fold(email)), Wanted(role)) || Unowned(ms, c, Seat(org, Fold(email)), Wanted(role)) then Forbidden
      else Conflict
    case Patch(org, email, newRole) =>
      var seat := Seat(org, Fold(Lower(email)));
      if !Manages(ms, c, org) then Forbidden
      else if seat !in ms then NotFound
      else if newRole.None? then Ok
      else if Fold(newRole.value) == "" || Wanted(newRole.value) == "" then BadRequest
      else if Spared(ms, seat, Wanted(newRole.value)) || Unowned(ms, c, seat, Wanted(newRole.value)) then Forbidden
      else Conflict
    case Remove(org, email) =>
      var seat := Seat(org, Fold(Lower(email)));
      if !Manages(ms, c, org) then Forbidden
      else if seat !in ms then NotFound
      else if Spared(ms, seat, "") || Unowned(ms, c, seat, "") then Forbidden
      else Conflict
    case Leave(org) =>
      if c.user.None? then Forbidden
      else if Seat(org, Fold(c.user.value.email)) !in ms then NotFound
      else Conflict
    case Invitation(org, email, role, expires, token) =>
      if !Manages(ms, c, org) then Forbidden
      else if Fold(email) == "" then BadRequest
      else if Wanted(role) == "owner" then Forbidden
      else if Wanted(role) == "" then BadRequest
      else Failed
    case Accept(token) => NoResponse(st, c, token, now)
    case Decline(token) => NoResponse(st, c, token, now)
  }

  /** Ownership is at stake and the caller is no owner. */
  predicate Unowned(ms: Members, c: Caller, seat: Seat, to: string)
  {
    (to == "owner" || Says(ms, seat, {"owner"})) && !Owns(ms, c, seat.org)
  }

  function NoResponse(st: Orgs, c: Caller, token: string, now: int): Reply
  {
    if c.user.None? then Forbidden
    else if Text.TrimSpace(token) == "" then BadRequest
    else if token !in st.invites then NotFound
    else if st.invites[token].expires != 0 && now > st.invites[token].expires then Gone
    else if st.invites[token].status != Pending then Conflict
    else Forbidden
  }

  lemma RefusalIs(ms: Members, c: Caller, seat: Seat, to: string)
    requires to in {OWNER, ADMIN, EDITOR, VIEWER, ""} && AdminAuthority(ms, c, seat.org)
    ensures !MayChange(ms, c, seat, to) ==>
              RoleChange(ms, c, seat.org, RoleOf(ms, seat), to) ==
              if Spared(ms, seat, to) || Unowned(ms, c, seat, to) then Forbidden else Conflict
  {
    hide Fold, NormalizeRole, Guard, Spared, OwnerAuthority, Owns, AdminAuthority, Manages;
    OwnsIs(ms, c, seat.org);
    ManagesIs(ms, c, seat.org);
    if seat in ms {
      RoleWord(ms[seat]);
      SparedIs(ms, seat, to);
    } else {
      NobodySpared(ms, seat, to);
    }
  }

  lemma RefusedBecause(st: Orgs, c: Caller, req: Request, now: int)
    ensures !Permitted(st, c, req, now) ==> Answer(st, c, req, now) == Refusal(st, c, req, now)
  {
    hide Fold, Lower, NormalizeRole, NormalizeLegacyRole, AdminAuthority, Manages, RoleChange, MayChange, Guard, Spared, Wanted,
      AddedRole, InviteRole, Text.TrimSpace, Unowned;
    PermittedExactly(st, c, req, now);
    var ms := st.members;
    match req
    case Add(org, email, role) =>
      ManagesIs(ms, c, org);
      WantedIs(role);
      ChangeNeedsManager(ms, c, SeatFor(org, email), Wanted(role));
      if AdminAuthority(ms, c, org) { RefusalIs(ms, c, SeatFor(org, email), Wanted(role)); }
    case Patch(org, email, newRole) =>
      ManagesIs(ms, c, org);
      if newRole.Some? {
        WantedIs(newRole.value);
        if AdminAuthority(ms, c, org) { RefusalIs(ms, c, SeatFor(org, Lower(email)), Wanted(newRole.value)); }
      }
    case Remove(org, email) =>
      ManagesIs(ms, c, org);
      if AdminAuthority(ms, c, org) { RefusalIs(ms, c, SeatFor(org, Lower(email)), ""); }
    case Leave(org) =>
    case Invitation(org, email, role, expires, token) =>
      ManagesIs(ms, c, org);
      WantedIs(role);
      OwnerWord(role);
    case _ =>
  }

  lemma OwnerWord(role: string)
    ensures Wanted(role) == "owner" <==> Fold(role) == "owner"
  {
    hide Fold;
  }

  // -------------------------------------------------------------- what it does

  /** The stores after a permitted request, and after a refused one: the latter changes
      nothing, except that a pending invitation found lapsed is retired. */
  function Outcome(st: Orgs, c: Caller, req: Request, now: int, permitted: bool): Orgs
    requires permitted && (req.Accept? || req.Decline?) ==> req.token in st.invites
    requires permitted && req.Leave? ==> c.user.Some?
  {
    if !permitted then
      if (req.Accept? || req.Decline?) && c.user.Some? && Text.TrimSpace(req.token) != "" && req.token in st.invites &&
         st.invites[req.token].status == Pending && st.invites[req.token].expires != 0 && now > st.invites[req.token].expires
      then st.(invites := st.invites[req.token := st.invites[req.token].(status := Expired)])
      else st
    else
      match req
      case Add(org, email, role) => st.(members := st.members[Seat(org, Fold(email)) := Wanted(role)])
      case Patch(org, email, newRole) =>
        if newRole.None? then st else st.(members := st.members[Seat(org, Fold(Lower(email))) := Wanted(newRole.value)])
      case Remove(org, email) => st.(members := st.members - {Seat(org, Fold(Lower(email)))})
      case Leave(org) => st.(members := st.members - {Seat(org, Fold(c.user.value.email))})
      case Invitation(org, email, role, expires, token) =>
        st.(invites := st.invites[token := Invite(org, Fold(email), Wanted(role), Pending,
                                                  if expires == 0 then now + 604800 else expires)])
      case Accept(token) =>
        var inv := st.invites[token];
        Orgs(st.members[Seat(inv.org, inv.email) := if inv.role == "" then "editor" else inv.role],
             st.invites[token := inv.(status := Accepted)])
      case Decline(token) => st.(invites := st.invites[token := st.invites[token].(status := Declined)])
  }

  /** All the writes of a request together. */
  lemma OutcomeExactly(st: Orgs, c: Caller, req: Request, now: int)
    ensures var ok := Answer(st, c, req, now) == Ok;
            && (ok && (req.Accept? || req.Decline?) ==> req.token in st.invites)
            && (ok && req.Leave? ==> c.user.Some?)
            && Replay(st, Writes(st, c, req, now), |Writes(st, c, req, now)|) == Outcome(st, c, req, now, ok)
  {
    hide Fold, Lower, NormalizeRole, NormalizeLegacyRole, AdminAuthority, RoleChange, Guard, AddedRole, InviteRole, Wanted,
      Text.TrimSpace;
    var ws := Writes(st, c, req, now);
    if |ws| >= 1 { assert Replay(st, ws, 1) == Apply(st, ws[0]); }
    if req.Add? { WantedIs(req.role); }
    if req.Invitation? { WantedIs(req.role); }
    if req.Patch? && req.newRole.Some? { WantedIs(req.newRole.value); }
  }
}
