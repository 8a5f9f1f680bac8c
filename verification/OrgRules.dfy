/** Who may change an organisation's members, and how: roles, guards, and what each
    request writes. A request that fails part way has made a prefix of its writes. */
module OrgRules {
  import opened Wrappers
  import opened Text

  // ------------------------------------------------------------ roles and emails

  const OWNER := "owner"
  const ADMIN := "admin"
  const EDITOR := "editor"
  const VIEWER := "viewer"

  function LowerChar(c: char): char
  {
    if 'A' <= c <= 'Z' then c - 'A' + 'a' else c
  }

  /** `strings.ToLower`, for ASCII letters. */
  function Lower(s: string): (r: string)
    ensures |r| == |s| && forall i :: 0 <= i < |s| ==> r[i] == LowerChar(s[i])
  {
    seq(|s|, i requires 0 <= i < |s| => LowerChar(s[i]))
  }

  /** How emails and role names are compared. */
  function Fold(s: string): string { Lower(TrimSpace(s)) }

  lemma FoldTwice(s: string)
    ensures Fold(Fold(s)) == Fold(s)
  {
    hide TrimSpace, LowerChar, IsSpace;
    var t := TrimSpace(s);
    forall c { LowerOnce(c); }
    assert Trimmed(Lower(t));
    assert Lower(Lower(t)) == Lower(t);
  }

  lemma LowerOnce(c: char)
    ensures LowerChar(LowerChar(c)) == LowerChar(c) && IsSpace(LowerChar(c)) == IsSpace(c)
  {
  }

  function NormalizeLegacyRole(role: string): (r: string)
    ensures r in {OWNER, ADMIN, EDITOR, VIEWER, ""}
  {
    var f := Fold(role);
    if f == OWNER then OWNER
    else if f == ADMIN || f == "org_admin" then ADMIN
    else if f == EDITOR || f == "member" then EDITOR
    else if f == VIEWER then VIEWER
    else ""
  }

  function NormalizeRole(role: string): (r: string)
  {
    var n := NormalizeLegacyRole(role);
    if n == "" then VIEWER else n
  }

  function NormalizeSystemRole(role: string): string
  {
    var f := Fold(role);
    if f in {VIEWER, EDITOR, ADMIN} then f else ""
  }

  function Rank(role: string): nat
  {
    if role == OWNER then 4 else if role == ADMIN then 3 else if role == EDITOR then 2 else if role == VIEWER then 1 else 0
  }

  predicate AtLeast(have: string, want: string) { Rank(have) >= Rank(want) }

  /** Roles are stored in the form they are counted in. */
  lemma RolesAreStable(role: string)
    ensures NormalizeRole(NormalizeRole(role)) == NormalizeRole(role)
    ensures NormalizeLegacyRole(role) != "" ==> NormalizeRole(NormalizeLegacyRole(role)) == NormalizeLegacyRole(role)
  {
    hide Fold;
    FoldOf(NormalizeRole(role));
    FoldOf(NormalizeLegacyRole(role));
  }

  lemma FoldOf(role: string)
    requires role in {OWNER, ADMIN, EDITOR, VIEWER, ""}
    ensures Fold(role) == role
  {
    assert Trimmed(role);
    assert forall i :: 0 <= i < |role| ==> LowerChar(role[i]) == role[i];
    assert Lower(role) == role;
  }

  // ------------------------------------------------------------------ the stores

  /** Primary key of a membership; the store folds the email. */
  datatype Seat = Seat(org: string, email: string)

  type Members = map<Seat, string>

  datatype Status = Pending | Accepted | Declined | Expired

  /** An expiry of zero is none. */
  datatype Invite = Invite(org: string, email: string, role: string, status: Status, expires: int)

  datatype Orgs = Orgs(members: Members, invites: map<string, Invite>)

  function SeatFor(org: string, email: string): Seat { Seat(org, Fold(email)) }

  /** The role a member acts with; None for a stranger. */
  function RoleOf(ms: Members, seat: Seat): Option<string>
  {
    if seat in ms then Some(NormalizeRole(ms[seat])) else None
  }

  predicate IsOwner(ms: Members, seat: Seat) { RoleOf(ms, seat) == Some(OWNER) }

  /** What CountOrgOwners counts: the exact word. */
  function OwnerSeats(ms: Members, org: string): set<Seat>
  {
    set s | s in ms && s.org == org && ms[s] == OWNER
  }

  function AdminSeats(ms: Members, org: string): set<Seat>
  {
    set s | s in ms && s.org == org && (ms[s] == ADMIN || ms[s] == "org_admin")
  }

  datatype Write =
    | PutMember(seat: Seat, role: string)
    | DropMember(seat: Seat)
    | PutInvite(token: string, invite: Invite)
    | SetStatus(token: string, status: Status)

  /** The store's default. */
  function StoredRole(role: string): string { if role == "" then EDITOR else role }

  function Apply(st: Orgs, w: Write): Orgs
  {
    match w
    case PutMember(seat, role) => st.(members := st.members[seat := StoredRole(role)])
    case DropMember(seat) => st.(members := st.members - {seat})
    case PutInvite(token, invite) => st.(invites := st.invites[token := invite])
    case SetStatus(token, status) =>
      if token in st.invites
      then st.(invites := st.invites[token := st.invites[token].(status := status)]) else st
  }

  /** After the first `n` writes. */
  function Replay(st: Orgs, ws: seq<Write>, n: nat): Orgs
    requires n <= |ws|
  {
    if n == 0 then st else Apply(Replay(st, ws, n - 1), ws[n - 1])
  }

  // ------------------------------------------------------------------- authority

  datatype User = User(email: string, systemRole: string)

  /** A system admin, a human (`user` set), or an API key pinned to `org`. */
  datatype Caller = Caller(admin: bool, subject: string, org: string, user: Option<User>)

  predicate OwnerAuthority(ms: Members, c: Caller, org: string)
  {
    c.admin || (c.user.Some? && IsOwner(ms, SeatFor(org, c.user.value.email)))
  }

  predicate AdminAuthority(ms: Members, c: Caller, org: string)
  {
    || c.admin
    || (c.user.None? && c.subject != "" && c.org == org)
    || (c.user.Some? && AtLeast(NormalizeSystemRole(c.user.value.systemRole), EDITOR))
    || (c.user.Some? &&
        var r := RoleOf(ms, SeatFor(org, c.user.value.email));
        r.Some? && AtLeast(r.value, ADMIN))
  }

  /** The change leaves an owner (or, for an admin, an admin) by the stores' counts;
      `to` is "" for a removal. */
  predicate Guard(ms: Members, org: string, from: string, to: string)
  {
    && (from == OWNER && !AtLeast(to, OWNER) ==> |OwnerSeats(ms, org)| > 1)
    && (from != OWNER && AtLeast(from, ADMIN) && !AtLeast(to, ADMIN) ==> |AdminSeats(ms, org)| > 1)
  }

  // ------------------------------------------------------------------- requests

  datatype Request =
    | Add(org: string, email: string, role: string)
    | Patch(org: string, email: string, newRole: Option<string>)
    | Remove(org: string, email: string)
    | Leave(org: string)
    | Invitation(org: string, email: string, role: string, expires: int, token: string)
    | Accept(token: string)
    | Decline(token: string)

  datatype Reply = Ok | BadRequest | Forbidden | NotFound | Conflict | Gone | Failed

  function AddedRole(role: string): string
  {
    if TrimSpace(role) == "" then VIEWER else NormalizeLegacyRole(role)
  }

  /** None: refused. Owner is never grantable by invitation. */
  function InviteRole(raw: string): Option<string>
  {
    var f := Fold(raw);
    if f == "" then Some(VIEWER)
    else if f == OWNER then None
    else if f in {VIEWER, EDITOR, ADMIN} then Some(f)
    else
      var n := NormalizeLegacyRole(f);
      if n != "" then Some(n) else None
  }

  const INVITE_TTL := 7 * 24 * 3600

  /** Setting the member's role from `from` (None for a newcomer) to `to`. */
  function RoleChange(ms: Members, c: Caller, org: string, from: Option<string>, to: string): Reply
  {
    if (to == OWNER || from == Some(OWNER)) && !OwnerAuthority(ms, c, org) then Forbidden
    else if from.Some? && !Guard(ms, org, from.value, to) then Conflict
    else Ok
  }

  predicate Lapsed(inv: Invite, now: int) { inv.expires != 0 && now > inv.expires }

  /** The checks common to accept and decline. */
  function Respond(st: Orgs, c: Caller, token: string, now: int): Reply
  {
    if c.user.None? then Forbidden
    else if TrimSpace(token) == "" then BadRequest
    else if token !in st.invites then NotFound
    else if Lapsed(st.invites[token], now) then Gone
    else if st.invites[token].status != Pending then Conflict
    else if Fold(c.user.value.email) != st.invites[token].email then Forbidden
    else Ok
  }

  /** The reply when no store call fails. */
  function Answer(st: Orgs, c: Caller, req: Request, now: int): Reply
  {
    var ms := st.members;
    match req
    case Add(org, email, role) =>
      if !AdminAuthority(ms, c, org) then Forbidden
      else if Fold(email) == "" || AddedRole(role) == "" then BadRequest
      else RoleChange(ms, c, org, RoleOf(ms, SeatFor(org, email)), AddedRole(role))
    case Patch(org, email, newRole) =>
      if !AdminAuthority(ms, c, org) then Forbidden
      else if SeatFor(org, Lower(email)) !in ms then NotFound
      else if newRole.None? then Ok
      else if NormalizeLegacyRole(newRole.value) == "" then BadRequest
      else RoleChange(ms, c, org, RoleOf(ms, SeatFor(org, Lower(email))), NormalizeLegacyRole(newRole.value))
    case Remove(org, email) =>
      if !AdminAuthority(ms, c, org) then Forbidden
      else if SeatFor(org, Lower(email)) !in ms then NotFound
      else RoleChange(ms, c, org, RoleOf(ms, SeatFor(org, Lower(email))), "")
    case Leave(org) =>
      if c.user.None? then Forbidden
      else if SeatFor(org, c.user.value.email) !in ms then NotFound
      else if Guard(ms, org, NormalizeRole(ms[SeatFor(org, c.user.value.email)]), "") then Ok else Conflict
    case Invitation(org, email, role, expires, token) =>
      if !AdminAuthority(ms, c, org) then Forbidden
      else if Fold(email) == "" then BadRequest
      else if InviteRole(role).None? then if Fold(role) == OWNER then Forbidden else BadRequest
      else if token in st.invites then Failed
      else Ok
    case Accept(token) => Respond(st, c, token, now)
    case Decline(token) => Respond(st, c, token, now)
  }

  /** The writes of a request, in order, when no store call fails. */
  function Writes(st: Orgs, c: Caller, req: Request, now: int): seq<Write>
  {
    var a := Answer(st, c, req, now);
    match req
    case Add(org, email, role) =>
      if a == Ok then [PutMember(SeatFor(org, email), AddedRole(role))] else []
    case Patch(org, email, newRole) =>
      if a == Ok && newRole.Some?
      then [PutMember(SeatFor(org, Lower(email)), NormalizeLegacyRole(newRole.value))] else []
    case Remove(org, email) =>
      if a == Ok then [DropMember(SeatFor(org, Lower(email)))] else []
    case Leave(org) =>
      if a == Ok && c.user.Some? then [DropMember(SeatFor(org, c.user.value.email))] else []
    case Invitation(org, email, role, expires, token) =>
      if a == Ok && InviteRole(role).Some?
      then [PutInvite(token, Invite(org, Fold(email), InviteRole(role).value, Pending,
                                    if expires == 0 then now + INVITE_TTL else expires))]
      else []
    case Accept(token) =>
      if a == Ok && token in st.invites
      then [PutMember(Seat(st.invites[token].org, st.invites[token].email), st.invites[token].role),
            SetStatus(token, Accepted)]
      else Retire(st, token, a)
    case Decline(token) =>
      if a == Ok then [SetStatus(token, Declined)] else Retire(st, token, a)
  }

  /** A lapsed invitation is retired when it is touched. */
  function Retire(st: Orgs, token: string, a: Reply): seq<Write>
  {
    if a == Gone && token in st.invites && st.invites[token].status == Pending
    then [SetStatus(token, Expired)] else []
  }
}
