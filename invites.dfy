/** The project-invite lifecycle of internal/service/invite.go and its HTTP
    handlers in internal/handler/invite_handler.go. The MongoDB collections
    become fields of a store object: the users in storage order, the projects
    and the invites keyed by id, and the project log. */
module Invites {
  import opened Common

  datatype InviteStatus = Pending | Accepted | Declined

  /** The invite document of models/project_invite.go (without its time
      stamps). */
  datatype Invite = Invite(id: ObjectId, projectId: ObjectId, senderId: ObjectId,
                           receiverId: ObjectId, status: InviteStatus)

  /** The project fields the invite service reads and writes. */
  datatype Project = Project(id: ObjectId, name: string, team: seq<ObjectId>)

  /** A project log entry: project and user as hex text, and the message. */
  datatype LogEntry = LogEntry(projectId: string, userId: string, message: string)

  /** The errors of the invite service. */
  datatype InviteError =
    | ReceiverNotFound
    | InvalidProjectId
    | ProjectNotFound
    | AlreadyMember
    | AlreadyInvited
    | InviteNotFound
    | LogWriteFailed

  function ErrorText(e: InviteError): (t: string)
    ensures e == ReceiverNotFound ==> t == "receiver not found"
    ensures e == InvalidProjectId ==> t == "invalid project ID"
    ensures e == ProjectNotFound ==> t == "project not found"
    ensures e == AlreadyMember ==> t == "user is already a member of this project"
    ensures e == AlreadyInvited ==> t == "invite already sent to this user"
    ensures e == InviteNotFound ==> t == "invite not found or already handled"
  {
    match e
    case ReceiverNotFound => "receiver not found"
    case InvalidProjectId => "invalid project ID"
    case ProjectNotFound => "project not found"
    case AlreadyMember => "user is already a member of this project"
    case AlreadyInvited => "invite already sent to this user"
    case InviteNotFound => "invite not found or already handled"
    case LogWriteFailed => "log write failed"
  }

  // ---------------------------------------------------------------------
  // Lookups

  /** The filter of a users-collection FindOne: by e-mail or by id. */
  datatype UserKey = ByEmail(email: string) | ById(id: ObjectId)

  predicate HasKey(u: User, key: UserKey) {
    match key
    case ByEmail(e) => u.email == e
    case ById(id) => u.id == id
  }

  /** FindOne on the users collection: the first stored user the filter
      matches, or none when no user matches. */
  function FindUser(users: seq<User>, key: UserKey): (r: Option<User>)
    ensures r.Some? ==> r.value in users && HasKey(r.value, key)
    ensures r.None? ==> forall u :: u in users ==> !HasKey(u, key)
    ensures r.Some? ==> exists i :: 0 <= i < |users| && users[i] == r.value
                                    && forall j :: 0 <= j < i ==> !HasKey(users[j], key)
  {
    if users == [] then None
    else if HasKey(users[0], key) then
      assert users[0] == users[0];
      Some(users[0])
    else
      var r := FindUser(users[1..], key);
      assert forall j :: 1 <= j < |users| ==> users[j] == users[1..][j - 1];
      r
  }

  /** A pending or accepted invite of `receiver` to `project` exists; a
      declined one does not count. */
  predicate ActiveInviteExists(invites: map<ObjectId, Invite>, receiver: ObjectId, project: ObjectId) {
    exists k :: k in invites && invites[k].receiverId == receiver && invites[k].projectId == project
                && invites[k].status != Declined
  }

  /** The team loop of CreateProjectInvite, returning at the first match. */
  method IsTeamMember(team: seq<ObjectId>, id: ObjectId) returns (found: bool)
    ensures found <==> id in team
  {
    for i := 0 to |team|
      invariant id !in team[..i]
    {
      if team[i] == id {
        return true;
      }
      assert team[..i + 1] == team[..i] + [team[i]];
    }
    assert team[..|team|] == team;
    return false;
  }

  /** $addToSet: append unless already present. */
  function AddToSet(team: seq<ObjectId>, id: ObjectId): (t: seq<ObjectId>)
    ensures id in t
    ensures forall x :: x in team ==> x in t
    ensures forall x :: x in t ==> x in team || x == id
    ensures id in team ==> t == team
  {
    if id in team then team else team + [id]
  }

  lemma AddToSetNoDuplicates(team: seq<ObjectId>, id: ObjectId)
    requires forall i, j :: 0 <= i < j < |team| ==> team[i] != team[j]
    ensures var t := AddToSet(team, id);
            forall i, j :: 0 <= i < j < |t| ==> t[i] != t[j]
  {
  }

  // ---------------------------------------------------------------------
  // The checks of CreateProjectInvite

  /** The two lookups CreateProjectInvite runs side by side. When both fail,
      which error is reported depends on which goroutine sends first:
      `receiverFirst` picks it. All other checks follow in order. On success
      it gives the receiver and the project id. */
  function CreateChecks(users: seq<User>, projects: map<ObjectId, Project>, invites: map<ObjectId, Invite>,
                        email: string, projectHex: string, receiverFirst: bool): (r: Result<(User, ObjectId), InviteError>)
    ensures var receiver := FindUser(users, ByEmail(email));
            var pid := ObjectIDFromHex(projectHex);
            var projectErr := pid.None? || pid.value !in projects;
            && (receiver.None? && (!projectErr || receiverFirst) ==> r == Err(ReceiverNotFound))
            && (pid.None? && (receiver.Some? || !receiverFirst) ==> r == Err(InvalidProjectId))
            && (pid.Some? && pid.value !in projects && (receiver.Some? || !receiverFirst) ==>
                  r == Err(ProjectNotFound))
            && (receiver.Some? && !projectErr && receiver.value.id in projects[pid.value].team ==>
                  r == Err(AlreadyMember))
            && ((receiver.Some? && !projectErr && receiver.value.id !in projects[pid.value].team
                 && ActiveInviteExists(invites, receiver.value.id, pid.value)) ==> r == Err(AlreadyInvited))
            && (r.Ok? <==> receiver.Some? && !projectErr && receiver.value.id !in projects[pid.value].team
                           && !ActiveInviteExists(invites, receiver.value.id, pid.value))
            && (r.Ok? ==> r.value == (receiver.value, pid.value))
  {
    var receiver := FindUser(users, ByEmail(email));
    var pid := ObjectIDFromHex(projectHex);
    var receiverErr: Option<InviteError> := if receiver.None? then Some(ReceiverNotFound) else None;
    var projectErr: Option<InviteError> :=
      if pid.None? then Some(InvalidProjectId)
      else if pid.value !in projects then Some(ProjectNotFound)
      else None;
    if receiverErr.Some? && (projectErr.None? || receiverFirst) then Err(receiverErr.value)
    else if projectErr.Some? then Err(projectErr.value)
    else if receiver.value.id in projects[pid.value].team then Err(AlreadyMember)
    else if ActiveInviteExists(invites, receiver.value.id, pid.value) then Err(AlreadyInvited)
    else Ok((receiver.value, pid.value))
  }

  /** A declined invite never blocks a new one. */
  lemma DeclinedDoesNotBlock(invites: map<ObjectId, Invite>, k: ObjectId, receiver: ObjectId, project: ObjectId)
    requires k in invites && invites[k].receiverId == receiver && invites[k].projectId == project
    requires invites[k].status == Declined
    ensures ActiveInviteExists(invites, receiver, project) <==>
              ActiveInviteExists(invites - {k}, receiver, project)
  {
    if ActiveInviteExists(invites, receiver, project) {
      var j :| j in invites && invites[j].receiverId == receiver && invites[j].projectId == project
               && invites[j].status != Declined;
      assert j != k && j in invites - {k};
    }
  }

  // ---------------------------------------------------------------------
  // GetProjectInvites

  /** An invite with its project, sender and receiver filled in. */
  datatype InviteFull = InviteFull(id: ObjectId, status: InviteStatus, project: Project, sender: User, receiver: User)

  const FallbackProject := Project(NilObjectId, "Project", [])

  /** A zero-valued user with only the full name set. */
  function NamedUser(fullName: string): User
  {
    User(NilObjectId, fullName, "", "", [], 0, [], [], [], false, "", false)
  }

  /** One result of GetProjectInvites. */
  function Expand(inv: Invite, users: seq<User>, projects: map<ObjectId, Project>): (f: InviteFull)
    ensures f.id == inv.id && f.status == inv.status
    ensures f.project == (if inv.projectId in projects then projects[inv.projectId] else FallbackProject)
    ensures FindUser(users, ById(inv.senderId)).None? ==> f.sender == NamedUser("Someone")
    ensures FindUser(users, ById(inv.senderId)).Some? ==> f.sender == FindUser(users, ById(inv.senderId)).value
    ensures FindUser(users, ById(inv.receiverId)).None? ==> f.receiver == NamedUser("Unknown")
    ensures FindUser(users, ById(inv.receiverId)).Some? ==> f.receiver == FindUser(users, ById(inv.receiverId)).value
  {
    InviteFull(inv.id, inv.status, ProjectOr(projects, inv.projectId),
               UserOr(users, inv.senderId, "Someone"), UserOr(users, inv.receiverId, "Unknown"))
  }

  /** The project looked up by id, or the placeholder named "Project". */
  function ProjectOr(projects: map<ObjectId, Project>, id: ObjectId): (p: Project)
    ensures id in projects ==> p == projects[id]
    ensures id !in projects ==> p == FallbackProject && p.name == "Project" && p.team == []
  {
    if id in projects then projects[id] else FallbackProject
  }

  /** The user looked up by id, or a zero user carrying only the fallback
      name. */
  function UserOr(users: seq<User>, id: ObjectId, fallback: string): (u: User)
    ensures FindUser(users, ById(id)).Some? ==> u in users && u.id == id
    ensures FindUser(users, ById(id)).None? ==> u.fullName == fallback && u.id == NilObjectId && u.email == ""
  {
    match FindUser(users, ById(id))
    case None => NamedUser(fallback)
    case Some(u) => u
  }

  /** The ids of the invites a receiver has. */
  function InvitesOf(invites: map<ObjectId, Invite>, receiverId: ObjectId): set<ObjectId>
  {
    set k | k in invites && invites[k].receiverId == receiverId
  }

  function Ids(result: seq<InviteFull>): set<ObjectId>
  {
    set f | f in result :: f.id
  }

  /** Each result is the expansion of its own invite, once. */
  predicate ExpandsInvites(result: seq<InviteFull>, invites: map<ObjectId, Invite>, users: seq<User>,
                           projects: map<ObjectId, Project>) {
    && (forall i :: 0 <= i < |result| ==>
          result[i].id in invites && result[i] == Expand(invites[result[i].id], users, projects))
    && (forall i, j :: 0 <= i < j < |result| ==> result[i].id != result[j].id)
  }

  lemma IdsAppend(result: seq<InviteFull>, f: InviteFull)
    ensures Ids(result + [f]) == Ids(result) + {f.id}
  {
    assert forall g :: g in result + [f] <==> g in result || g == f;
  }

  lemma AppendExpanded(result: seq<InviteFull>, invites: map<ObjectId, Invite>, users: seq<User>,
                       projects: map<ObjectId, Project>, k: ObjectId)
    requires ExpandsInvites(result, invites, users, projects) && |result| == |Ids(result)|
    requires k in invites && invites[k].id == k && k !in Ids(result)
    ensures var more := result + [Expand(invites[k], users, projects)];
            ExpandsInvites(more, invites, users, projects) && Ids(more) == Ids(result) + {k}
            && |more| == |Ids(more)|
  {
    var f := Expand(invites[k], users, projects);
    var more := result + [f];
    IdsAppend(result, f);
    forall i | 0 <= i < |more|
      ensures more[i].id in invites && more[i] == Expand(invites[more[i].id], users, projects)
    {
      if i < |result| {
        assert more[i] == result[i];
      } else {
        assert more[i] == f;
      }
    }
    forall i, j | 0 <= i < j < |more|
      ensures more[i].id != more[j].id
    {
      assert more[i] == result[i];
      if j == |result| {
        assert result[i] in result;
      } else {
        assert more[j] == result[j];
      }
    }
  }

  // ---------------------------------------------------------------------
  // The store

  /** The collections the invite service reads and writes: the users in
      storage order, the projects and the invites keyed by id, and the
      project log. */
  datatype Store = Store(users: seq<User>, projects: map<ObjectId, Project>,
                         invites: map<ObjectId, Invite>, logs: seq<LogEntry>)

  /** Every document is stored under its own id. */
  predicate StoreValid(s: Store) {
    && (forall k :: k in s.projects ==> s.projects[k].id == k)
    && (forall k :: k in s.invites ==> s.invites[k].id == k)
  }

  /** addUserToProject on the projects collection: $addToSet on the
      project's team; a project id no project has matches nothing. */
  function JoinTeam(projects: map<ObjectId, Project>, projectId: ObjectId, userId: ObjectId): (after: map<ObjectId, Project>)
    ensures after.Keys == projects.Keys
    ensures projectId in projects ==> after[projectId] == projects[projectId].(team := AddToSet(projects[projectId].team, userId))
    ensures forall k :: k in projects && k != projectId ==> after[k] == projects[k]
  {
    if projectId in projects then projects[projectId := projects[projectId].(team := AddToSet(projects[projectId].team, userId))]
    else projects
  }

  /** What CreateProjectInvite does: the checks, then a pending invite
      stored under `newId`, then the log entry. A failing log write reports
      an error but keeps the stored invite. */
  function CreateOutcome(s: Store, senderId: ObjectId, email: string, projectHex: string, newId: ObjectId,
                         receiverFirst: bool, logOk: bool): (o: (Store, Result<Invite, InviteError>))
    ensures o.0.users == s.users && o.0.projects == s.projects
    ensures StoreValid(s) ==> StoreValid(o.0)
    ensures var c := CreateChecks(s.users, s.projects, s.invites, email, projectHex, receiverFirst);
            && (c.Err? ==> o == (s, Err(c.error)))
            && (c.Ok? ==>
                  var inv := Invite(newId, c.value.1, senderId, c.value.0.id, Pending);
                  && o.0.invites == s.invites[newId := inv]
                  && (logOk ==> o.1 == Ok(inv)
                                && o.0.logs == s.logs + [LogEntry(c.value.1, senderId, "Invite has been sent to " + email)])
                  && (!logOk ==> o.1 == Err(LogWriteFailed) && o.0.logs == s.logs))
  {
    match CreateChecks(s.users, s.projects, s.invites, email, projectHex, receiverFirst)
    case Err(e) => (s, Err(e))
    case Ok((receiver, pid)) =>
      var inv := Invite(newId, pid, senderId, receiver.id, Pending);
      var stored := s.(invites := s.invites[newId := inv]);
      if logOk then (stored.(logs := s.logs + [LogEntry(pid, senderId, "Invite has been sent to " + email)]), Ok(inv))
      else (stored, Err(LogWriteFailed))
  }

  /** What RespondProjectInvite does: only an invite addressed to `userId`
      is matched, whatever its current status, and it becomes accepted or
      declined. Accepting adds the user to the team, then writes a log
      entry; a failing log write reports an error and keeps both changes. */
  function RespondOutcome(s: Store, userId: ObjectId, inviteId: ObjectId, accept: bool, logOk: bool)
    : (o: (Store, Result<Invite, InviteError>))
    ensures o.0.users == s.users
    ensures StoreValid(s) ==> StoreValid(o.0)
    ensures !(inviteId in s.invites && s.invites[inviteId].receiverId == userId) ==> o == (s, Err(InviteNotFound))
    ensures inviteId in s.invites && s.invites[inviteId].receiverId == userId ==>
              var inv := s.invites[inviteId].(status := if accept then Accepted else Declined);
              && o.0.invites == s.invites[inviteId := inv]
              && (!accept ==> o.1 == Ok(inv) && o.0.projects == s.projects && o.0.logs == s.logs)
              && (accept ==> o.0.projects == JoinTeam(s.projects, inv.projectId, userId))
              && (accept && logOk ==> o.1 == Ok(inv) && o.0.logs == s.logs + [LogEntry(inv.projectId, userId, "Invite has been accepted")])
              && (accept && !logOk ==> o.1 == Err(LogWriteFailed) && o.0.logs == s.logs)
  {
    if !(inviteId in s.invites && s.invites[inviteId].receiverId == userId) then (s, Err(InviteNotFound))
    else
      var inv := s.invites[inviteId].(status := if accept then Accepted else Declined);
      var answered := s.(invites := s.invites[inviteId := inv]);
      if !accept then (answered, Ok(inv))
      else
        var joined := answered.(projects := JoinTeam(s.projects, inv.projectId, userId));
        if logOk then (joined.(logs := s.logs + [LogEntry(inv.projectId, userId, "Invite has been accepted")]), Ok(inv))
        else (joined, Err(LogWriteFailed))
  }

  /** Once an invite has been stored, inviting the same person to the same
      project again is refused as already sent, whichever lookup reports
      first and whether or not the log write succeeded. */
  lemma SecondInviteRefused(s: Store, senderId: ObjectId, email: string, projectHex: string, newId: ObjectId,
                            receiverFirst: bool, logOk: bool, receiverFirst': bool)
    requires CreateChecks(s.users, s.projects, s.invites, email, projectHex, receiverFirst).Ok?
    ensures var after := CreateOutcome(s, senderId, email, projectHex, newId, receiverFirst, logOk).0;
            CreateChecks(after.users, after.projects, after.invites, email, projectHex, receiverFirst')
            == Err(AlreadyInvited)
  {
    var c := CreateChecks(s.users, s.projects, s.invites, email, projectHex, receiverFirst);
    var after := CreateOutcome(s, senderId, email, projectHex, newId, receiverFirst, logOk).0;
    var inv := Invite(newId, c.value.1, senderId, c.value.0.id, Pending);
    assert after.invites[newId] == inv;
    assert ActiveInviteExists(after.invites, c.value.0.id, c.value.1);
  }

  /** Once the receiver has accepted, a new invite to the same project is
      refused because they are already a member. */
  lemma AcceptedThenAlreadyMember(s: Store, u: User, inviteId: ObjectId, logOk: bool, receiverFirst: bool)
    requires FindUser(s.users, ByEmail(u.email)) == Some(u)
    requires inviteId in s.invites && s.invites[inviteId].receiverId == u.id
    requires s.invites[inviteId].projectId in s.projects
    ensures var after := RespondOutcome(s, u.id, inviteId, true, logOk).0;
            var pid := s.invites[inviteId].projectId;
            CreateChecks(after.users, after.projects, after.invites, u.email, pid, receiverFirst) == Err(AlreadyMember)
  {
    var pid := s.invites[inviteId].projectId;
    var after := RespondOutcome(s, u.id, inviteId, true, logOk).0;
    HexRoundTrip(pid);
    assert u.id in after.projects[pid].team;
  }

  class InviteStore {
    var users: seq<User>
    var projects: map<ObjectId, Project>
    var invites: map<ObjectId, Invite>
    var logs: seq<LogEntry>

    /** The store's collections as one value. */
    function State(): Store
      reads this
    {
      Store(users, projects, invites, logs)
    }

    predicate Valid()
      reads this
    {
      StoreValid(State())
    }

    constructor(users: seq<User>, projects: map<ObjectId, Project>)
      requires forall k :: k in projects ==> projects[k].id == k
      ensures State() == Store(users, projects, map[], [])
      ensures Valid()
    {
      this.users := users;
      this.projects := projects;
      invites := map[];
      logs := [];
    }

    /** CreateProjectInvite. `newId` is the id the upsert gives the new
        document, `receiverFirst` settles the race between the two lookups,
        and `logOk` says whether the log write succeeds. */
    method CreateProjectInvite(senderId: ObjectId, email: string, projectHex: string, newId: ObjectId,
                               receiverFirst: bool, logOk: bool)
      returns (r: Result<Invite, InviteError>)
      requires Valid() && newId !in invites
      modifies this
      ensures Valid()
      ensures (State(), r) == CreateOutcome(old(State()), senderId, email, projectHex, newId, receiverFirst, logOk)
    {
      var receiver := FindUser(users, ByEmail(email));
      var pid := ObjectIDFromHex(projectHex);
      var receiverErr: Option<InviteError> := if receiver.None? then Some(ReceiverNotFound) else None;
      var projectErr: Option<InviteError> :=
        if pid.None? then Some(InvalidProjectId)
        else if pid.value !in projects then Some(ProjectNotFound)
        else None;
      if receiverErr.Some? && (projectErr.None? || receiverFirst) {
        return Err(receiverErr.value);
      }
      if projectErr.Some? {
        return Err(projectErr.value);
      }
      var projectId := pid.value;
      var member := IsTeamMember(projects[projectId].team, receiver.value.id);
      if member {
        return Err(AlreadyMember);
      }
      if ActiveInviteExists(invites, receiver.value.id, projectId) {
        return Err(AlreadyInvited);
      }
      var inv := Invite(newId, projectId, senderId, receiver.value.id, Pending);
      invites := invites[newId := inv];
      if !logOk {
        return Err(LogWriteFailed);
      }
      logs := logs + [LogEntry(projectId, senderId, "Invite has been sent to " + email)];
      r := Ok(inv);
    }

    /** addUserToProject. */
    method AddUserToProject(projectId: ObjectId, userId: ObjectId)
      requires Valid()
      modifies this
      ensures Valid()
      ensures State() == old(State()).(projects := JoinTeam(old(projects), projectId, userId))
    {
      if projectId in projects {
        var p := projects[projectId];
        projects := projects[projectId := p.(team := AddToSet(p.team, userId))];
      }
    }

    /** RespondProjectInvite. */
    method RespondProjectInvite(userId: ObjectId, inviteId: ObjectId, accept: bool, logOk: bool)
      returns (r: Result<Invite, InviteError>)
      requires Valid()
      modifies this
      ensures Valid()
      ensures (State(), r) == RespondOutcome(old(State()), userId, inviteId, accept, logOk)
    {
      if !(inviteId in invites && invites[inviteId].receiverId == userId) {
        return Err(InviteNotFound);
      }
      var inv := invites[inviteId].(status := if accept then Accepted else Declined);
      invites := invites[inviteId := inv];
      if accept {
        AddUserToProject(inv.projectId, userId);
        if !logOk {
          return Err(LogWriteFailed);
        }
        logs := logs + [LogEntry(inv.projectId, userId, "Invite has been accepted")];
      }
      r := Ok(inv);
    }

    /** GetProjectInvites: every invite addressed to `receiverId`, expanded,
        in the order the cursor yields them. */
    method GetProjectInvites(receiverId: ObjectId) returns (result: seq<InviteFull>)
      requires Valid()
      ensures ExpandsInvites(result, invites, users, projects)
      ensures Ids(result) == InvitesOf(invites, receiverId)
      ensures |result| == |InvitesOf(invites, receiverId)|
    {
      var inv, us, ps := invites, users, projects;
      var wanted := InvitesOf(inv, receiverId);
      result := [];
      var remaining := wanted;
      while remaining != {}
        invariant ExpandsInvites(result, inv, us, ps) && |result| == |Ids(result)|
        invariant remaining + Ids(result) == wanted && remaining !! Ids(result)
        decreases |remaining|
      {
        var k :| k in remaining;
        ExpandStep(result, remaining, wanted, inv, us, ps, receiverId, k);
        result := result + [Expand(inv[k], us, ps)];
        remaining := remaining - {k};
      }
    }
  }

  /** One turn of GetProjectInvites' cursor loop keeps its invariants. */
  lemma ExpandStep(result: seq<InviteFull>, remaining: set<ObjectId>, wanted: set<ObjectId>,
                   inv: map<ObjectId, Invite>, us: seq<User>, ps: map<ObjectId, Project>,
                   receiverId: ObjectId, k: ObjectId)
    requires forall k :: k in inv ==> inv[k].id == k
    requires wanted == InvitesOf(inv, receiverId)
    requires ExpandsInvites(result, inv, us, ps) && |result| == |Ids(result)|
    requires remaining + Ids(result) == wanted && remaining !! Ids(result)
    requires k in remaining
    ensures var more := result + [Expand(inv[k], us, ps)];
            && ExpandsInvites(more, inv, us, ps) && |more| == |Ids(more)|
            && (remaining - {k}) + Ids(more) == wanted && (remaining - {k}) !! Ids(more)
  {
    AppendExpanded(result, inv, us, ps, k);
  }

  /** Responding never takes anyone off a team: every member before is a
      member after, and at most the responding user joins. */
  lemma RespondKeepsTeams(before: map<ObjectId, Project>, pid: ObjectId, userId: ObjectId)
    ensures var after := JoinTeam(before, pid, userId);
            && after.Keys == before.Keys
            && (forall k :: k in before ==> forall x :: x in before[k].team ==> x in after[k].team)
            && (forall k :: k in after ==> forall x :: x in after[k].team ==> x in before[k].team || x == userId)
            && (pid in before ==> userId in after[pid].team)
  {
  }

  // ---------------------------------------------------------------------
  // The HTTP handlers

  /** The JSON reply of a handler. */
  datatype Response = Response(status: int, message: string)

  /** What RespondProjectInviteHandler asks of the service. */
  datatype RespondCall = RespondCall(userId: ObjectId, inviteId: ObjectId, accept: bool)

  /** The checks before the service call: the invite id must be hex (400),
      the local must hold a user (401), and the action must be "accept" or
      "decline" (400, from an empty action too). */
  function RespondHandlerChecks(inviteHex: string, local: Local, action: string): (r: Result<RespondCall, Response>)
    ensures ObjectIDFromHex(inviteHex).None? ==> r == Err(Response(StatusBadRequest, ErrBadRequest))
    ensures ObjectIDFromHex(inviteHex).Some? && !local.UserLocal? ==>
              r == Err(Response(StatusUnauthorized, ErrUnauthorized))
    ensures ObjectIDFromHex(inviteHex).Some? && local.UserLocal? && action != "accept" && action != "decline" ==>
              r == Err(Response(StatusBadRequest, ErrBadRequest))
    ensures r.Ok? <==> ObjectIDFromHex(inviteHex).Some? && local.UserLocal? && (action == "accept" || action == "decline")
    ensures r.Ok? ==> r.value == RespondCall(local.user.id, ObjectIDFromHex(inviteHex).value, action == "accept")
  {
    match ObjectIDFromHex(inviteHex)
    case None => Err(Response(StatusBadRequest, ErrBadRequest))
    case Some(inviteId) =>
      match local
      case UserLocal(user) =>
        if action == "accept" then Ok(RespondCall(user.id, inviteId, true))
        else if action != "decline" then Err(Response(StatusBadRequest, ErrBadRequest))
        else Ok(RespondCall(user.id, inviteId, false))
      case _ => Err(Response(StatusUnauthorized, ErrUnauthorized))
  }

  /** Every service error becomes 400 Bad request; success is 200. */
  function ServiceReply(r: Result<Invite, InviteError>, success: string): (resp: Response)
    ensures r.Err? <==> resp == Response(StatusBadRequest, ErrBadRequest)
    ensures r.Ok? <==> resp == Response(StatusOK, success)
  {
    if r.Err? then Response(StatusBadRequest, ErrBadRequest) else Response(StatusOK, success)
  }

  /** The request body of CreateProjectInviteHandler. */
  datatype InviteRequest = InviteRequest(email: string, projectId: string)

  /** The checks before the create call: the body must parse (400) and the
      local must hold a user (500). It gives the sender's id. */
  function CreateHandlerChecks(body: Option<InviteRequest>, local: Local): (r: Result<(ObjectId, InviteRequest), Response>)
    ensures body.None? ==> r == Err(Response(StatusBadRequest, ErrBadRequest))
    ensures body.Some? && !local.UserLocal? ==> r == Err(Response(StatusInternalServerError, ErrInternalServer))
    ensures r.Ok? <==> body.Some? && local.UserLocal?
    ensures r.Ok? ==> r.value == (local.user.id, body.value)
  {
    match body
    case None => Err(Response(StatusBadRequest, ErrBadRequest))
    case Some(req) =>
      match local
      case UserLocal(user) => Ok((user.id, req))
      case _ => Err(Response(StatusInternalServerError, ErrInternalServer))
  }

  /** RespondProjectInviteHandler end to end: a refused request leaves the
      store untouched and never reaches the service; otherwise the service
      runs on the checked values and its outcome is mapped to the reply. */
  method RespondProjectInviteHandler(store: InviteStore, inviteHex: string, local: Local, action: string, logOk: bool)
    returns (resp: Response, result: Option<Result<Invite, InviteError>>)
    requires store.Valid()
    modifies store
    ensures store.Valid()
    ensures var checks := RespondHandlerChecks(inviteHex, local, action);
            && (checks.Err? ==> resp == checks.error && result.None? && store.State() == old(store.State()))
            && (checks.Ok? ==>
                  var o := RespondOutcome(old(store.State()), checks.value.userId, checks.value.inviteId,
                                          checks.value.accept, logOk);
                  && result == Some(o.1) && store.State() == o.0
                  && resp == ServiceReply(o.1, SuccessUpdated))
  {
    var checks := RespondHandlerChecks(inviteHex, local, action);
    if checks.Err? {
      return checks.error, None;
    }
    var call := checks.value;
    var r := store.RespondProjectInvite(call.userId, call.inviteId, call.accept, logOk);
    resp, result := ServiceReply(r, SuccessUpdated), Some(r);
  }

  /** CreateProjectInviteHandler end to end, in the same shape. */
  method CreateProjectInviteHandler(store: InviteStore, body: Option<InviteRequest>, local: Local, newId: ObjectId,
                                    receiverFirst: bool, logOk: bool)
    returns (resp: Response, result: Option<Result<Invite, InviteError>>)
    requires store.Valid() && newId !in store.invites
    modifies store
    ensures store.Valid()
    ensures var checks := CreateHandlerChecks(body, local);
            && (checks.Err? ==> resp == checks.error && result.None? && store.State() == old(store.State()))
            && (checks.Ok? ==>
                  var (sender, req) := checks.value;
                  var o := CreateOutcome(old(store.State()), sender, req.email, req.projectId, newId, receiverFirst, logOk);
                  && result == Some(o.1) && store.State() == o.0
                  && resp == ServiceReply(o.1, SuccessCreated))
  {
    var checks := CreateHandlerChecks(body, local);
    if checks.Err? {
      return checks.error, None;
    }
    var (sender, req) := checks.value;
    var r := store.CreateProjectInvite(sender, req.email, req.projectId, newId, receiverFirst, logOk);
    resp, result := ServiceReply(r, SuccessCreated), Some(r);
  }
}
