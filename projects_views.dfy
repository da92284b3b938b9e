/** The project endpoints' access gates and querysets (qfieldcloud/core/views/projects_views.py):
    `ProjectViewSetPermissions`, `ProjectViewSet.get_queryset`, `ProjectViewSet.destroy` and
    `PublicProjectsListView.get_queryset`. */
module ProjectsViews {
  import opened Wrappers
  import opened Text
  import opened CoreModels

  // Messages of the exceptions and validation errors raised by this part of the code.
  const UserNotFound := "User matching query does not exist."

  /** `ROLES_CAN_DELETE_PROJECT`, `ROLES_CAN_UPDATE_PROJECT` and `can_create_project` of
      `permissions_utils`; their contents are not part of this model. */
  datatype Policy = Policy(
    rolesCanDelete: set<ProjectRole>,
    rolesCanUpdate: set<ProjectRole>,
    canCreateProject: (UserId, UserId) -> bool)

  /** The actions whose permission is decided on the object. */
  predicate IsObjectAction(action: string)
  {
    action == "retrieve" || action == "destroy" || action == "update" || action == "partial_update"
  }

  /** `ProjectViewSetPermissions.has_object_permission`: Success(allowed), or Failure when the
      action is unknown. */
  function HasObjectPermission(action: string, userRole: ProjectRole, policy: Policy): (r: Result<bool>)
    ensures action == "retrieve" ==> r == Success(true)
    ensures action == "destroy" ==> r == Success(userRole in policy.rolesCanDelete)
    ensures (action == "update" || action == "partial_update") ==> r == Success(userRole in policy.rolesCanUpdate)
    ensures r.Failure? <==> !IsObjectAction(action)
  {
    if action == "retrieve" then Success(true)
    else if action == "destroy" then Success(userRole in policy.rolesCanDelete)
    else if action == "update" || action == "partial_update" then Success(userRole in policy.rolesCanUpdate)
    else Failure("Unknown object action : " + action)
  }

  /** `User.objects.get(username=...)`; usernames are unique, so the first match is the match. */
  function UserByUsername(users: seq<User>, username: string): (r: Option<User>)
    ensures r.Some? ==> r.value in users && r.value.username == username
    ensures r.None? <==> forall u :: u in users ==> u.username != username
  {
    if users == [] then None
    else if users[0].username == username then Some(users[0])
    else UserByUsername(users[1..], username)
  }

  /** `ProjectViewSetPermissions.has_permission`. `ownerParam` is what `get_param_from_request`
      returns for "owner"; an absent or empty value means the requesting user. */
  function HasPermission(db: Db, user: UserId, action: string, ownerParam: Option<string>, policy: Policy): (r: Result<bool>)
    ensures action == "list" ==> r == Success(true)
    ensures IsObjectAction(action) ==> r == Success(true)
    ensures action == "create" && (ownerParam.None? || ownerParam.value == "") ==>
      r == Success(policy.canCreateProject(user, user))
    ensures action == "create" && ownerParam.Some? && ownerParam.value != "" ==>
      (r.Failure? <==> forall u :: u in db.users ==> u.username != ownerParam.value)
      && (r.Success? ==> exists u :: u in db.users && u.username == ownerParam.value
                                    && r.value == policy.canCreateProject(user, u.id))
    ensures action != "list" && action != "create" && !IsObjectAction(action) ==> r.Failure?
  {
    if action == "list" then Success(true)
    else if action == "create" then
      if ownerParam.Some? && ownerParam.value != "" then
        match UserByUsername(db.users, ownerParam.value)
        case None => Failure(UserNotFound)
        case Some(owner) => Success(policy.canCreateProject(user, owner.id))
      else Success(policy.canCreateProject(user, user))
    else if IsObjectAction(action) then Success(true)
    else Failure("Unknown view action : " + action)
  }

  /** The two levels never both decide: an object action passes the view level and is decided
      by the object level alone; `list` and `create` never reach it. */
  lemma ObjectActionsDecidedOnObject(db: Db, user: UserId, action: string, ownerParam: Option<string>, role: ProjectRole, policy: Policy)
    requires IsObjectAction(action)
    ensures HasPermission(db, user, action, ownerParam, policy) == Success(true)
    ensures HasObjectPermission(action, role, policy).Success?
  {
  }

  /** The `include-public` query parameter is on: present and lower-casing to "true". */
  function IncludePublic(param: Option<string>): (b: bool)
    ensures b <==> param.Some? && |param.value| == 4 && forall i :: 0 <= i < 4 ==> LowerChar(param.value[i]) == "true"[i]
  {
    param.Some? && param.value != [] && Lower(param.value) == "true"
  }

  /** `exclude(user_role_origin=PUBLIC)`. */
  function ExcludePublic(rows: seq<ProjectWithRole>): (r: seq<ProjectWithRole>)
    ensures forall x :: x in r <==> x in rows && x.userRoleOrigin != Public
  {
    if rows == [] then []
    else (if rows[0].userRoleOrigin == Public then [] else [rows[0]]) + ExcludePublic(rows[1..])
  }

  /** `ProjectViewSet.get_queryset`. */
  function ListProjects(db: Db, user: UserId, includePublicParam: Option<string>): (r: seq<ProjectWithRole>)
    ensures forall x :: x in r <==>
      x in ForUser(db, user) && (IncludePublic(includePublicParam) || x.userRoleOrigin != Public)
  {
    var all := ForUser(db, user);
    if IncludePublic(includePublicParam) then all else ExcludePublic(all)
  }

  /** Without `include-public`, every listed project is reached by ownership, an organization
      or a grant, never by being public. */
  lemma ListingWithoutPublicNeedsARoute(db: Db, user: UserId, param: Option<string>, x: ProjectWithRole)
    requires !IncludePublic(param) && x in ListProjects(db, user, param)
    ensures OwnershipRule(db, user, x.project)
      || DirectGrant(db.collaborators, x.project.id, user).Some?
      || TeamGrant(db.teamMembers, db.collaborators, x.project.id, user).Some?
  {
    ResolveRoleRules(db, user, x.project);
  }

  /** `filter(is_public=True)`. */
  function OnlyPublic(rows: seq<ProjectWithRole>): (r: seq<ProjectWithRole>)
    ensures forall x :: x in r <==> x in rows && x.project.isPublic
  {
    if rows == [] then []
    else (if rows[0].project.isPublic then [rows[0]] else []) + OnlyPublic(rows[1..])
  }

  /** `PublicProjectsListView.get_queryset`. */
  function PublicProjects(db: Db, user: UserId): seq<ProjectWithRole>
  {
    OnlyPublic(ForUser(db, user))
  }

  /** The public listing holds exactly the public projects, whoever asks. */
  lemma PublicProjectsExactly(db: Db, user: UserId, p: Project)
    ensures (exists x :: x in PublicProjects(db, user) && x.project == p) <==> p in db.projects && p.isPublic
  {
    if p in db.projects && p.isPublic {
      PublicRuleIsReaderOnly(db, user, p);
      var g := ResolveRole(db, user, p).value;
      var x := ProjectWithRole(p, g.role, g.origin);
      assert x in ForUser(db, user);
      assert x in PublicProjects(db, user);
    }
  }

  /** `get_object`: the row of the queryset with primary key `pid`. */
  function FindProject(rows: seq<ProjectWithRole>, pid: ProjectId): (r: Option<ProjectWithRole>)
    ensures r.Some? ==> r.value in rows && r.value.project.id == pid
    ensures r.None? <==> forall x :: x in rows ==> x.project.id != pid
  {
    if rows == [] then None
    else if rows[0].project.id == pid then Some(rows[0])
    else FindProject(rows[1..], pid)
  }

  /** `utils.safe_join("projects/{}/".format(projectid))`. */
  function ProjectPrefix(pid: ProjectId): string
  {
    "projects/" + pid + "/"
  }

  /** `bucket.objects.filter(Prefix=prefix).delete()`: the keys that remain. */
  function Purge(keys: set<string>, prefix: string): (r: set<string>)
    ensures r <= keys
    ensures forall k :: k in keys ==> (k in r <==> !StartsWith(k, prefix))
  {
    set k | k in keys && !StartsWith(k, prefix)
  }

  /** Deleting a project row removes its collaborator rows with it (`on_delete=CASCADE`). */
  function DeleteProject(db: Db, pid: ProjectId): (r: Db)
    ensures forall p :: p in r.projects <==> p in db.projects && p.id != pid
    ensures forall c :: c in r.collaborators <==> c in db.collaborators && c.project != pid
    ensures r.users == db.users && r.organizations == db.organizations && r.members == db.members
    ensures r.teams == db.teams && r.teamMembers == db.teamMembers
  {
    db.(projects := RemoveProjectRows(db.projects, pid), collaborators := RemoveCollaboratorRows(db.collaborators, pid))
  }

  function RemoveProjectRows(ps: seq<Project>, pid: ProjectId): (r: seq<Project>)
    ensures forall p :: p in r <==> p in ps && p.id != pid
  {
    if ps == [] then [] else (if ps[0].id == pid then [] else [ps[0]]) + RemoveProjectRows(ps[1..], pid)
  }

  function RemoveCollaboratorRows(cs: seq<ProjectCollaborator>, pid: ProjectId): (r: seq<ProjectCollaborator>)
    ensures forall c :: c in r <==> c in cs && c.project != pid
  {
    if cs == [] then [] else (if cs[0].project == pid then [] else [cs[0]]) + RemoveCollaboratorRows(cs[1..], pid)
  }

  /** Saving the validated `name` and `owner` fields of a partial update on project `pid`. */
  function UpdateProjectRows(ps: seq<Project>, pid: ProjectId, name: Option<string>, owner: Option<UserId>): (r: seq<Project>)
    ensures |r| == |ps|
    ensures forall i :: 0 <= i < |ps| ==> r[i] == if ps[i].id != pid then ps[i] else
      ps[i].(name := if name.Some? then name.value else ps[i].name, owner := if owner.Some? then owner.value else ps[i].owner)
  {
    if ps == [] then []
    else
      var p := ps[0];
      var p' := if p.id != pid then p else
        p.(name := if name.Some? then name.value else p.name, owner := if owner.Some? then owner.value else p.owner);
      [p'] + UpdateProjectRows(ps[1..], pid, name, owner)
  }

  /** How a request ends: done, 404 from `get_object`, or 403 from the object permission. */
  datatype Outcome = Done | NotFound | PermissionDenied

  /** The project table and the storage bucket the endpoints act on. */
  class ProjectApi {
    var db: Db
    /** Object keys in the bucket. */
    var storage: set<string>
    const policy: Policy

    constructor(db: Db, storage: set<string>, policy: Policy)
      ensures this.db == db && this.storage == storage && this.policy == policy
    {
      this.db := db;
      this.storage := storage;
      this.policy := policy;
    }

    /** `partial_update`: look the project up in `get_queryset`, check the object permission,
        then save the given fields; a refused request changes nothing. */
    method PartialUpdate(user: UserId, projectid: ProjectId, includePublicParam: Option<string>,
                         name: Option<string>, owner: Option<UserId>) returns (r: Outcome)
      modifies this
      ensures storage == old(storage)
      ensures var obj := FindProject(ListProjects(old(db), user, includePublicParam), projectid);
        (r == NotFound <==> obj.None?)
        && (r == Done <==> obj.Some? && obj.value.userRole in policy.rolesCanUpdate)
      ensures r == Done ==> db == old(db).(projects := UpdateProjectRows(old(db).projects, projectid, name, owner))
      ensures r != Done ==> db == old(db)
    {
      var obj := FindProject(ListProjects(db, user, includePublicParam), projectid);
      if obj.None? {
        return NotFound;
      }
      var allowed := HasObjectPermission("partial_update", obj.value.userRole, policy);
      if !allowed.value {
        return PermissionDenied;
      }
      db := db.(projects := UpdateProjectRows(db.projects, projectid, name, owner));
      r := Done;
    }

    /** `ProjectViewSet.destroy` as written: the bucket is purged under the project's prefix
        first, and only then does `super().destroy()` look the project up and check
        `ROLES_CAN_DELETE_PROJECT`, so the files go even when the request is refused. */
    method DestroyAsWritten(user: UserId, projectid: ProjectId, includePublicParam: Option<string>) returns (r: Outcome)
      modifies this
      ensures storage == Purge(old(storage), ProjectPrefix(projectid))
      ensures var obj := FindProject(ListProjects(old(db), user, includePublicParam), projectid);
        (r == NotFound <==> obj.None?)
        && (r == Done <==> obj.Some? && obj.value.userRole in policy.rolesCanDelete)
      ensures db == if r == Done then DeleteProject(old(db), projectid) else old(db)
    {
      storage := Purge(storage, ProjectPrefix(projectid));
      var obj := FindProject(ListProjects(db, user, includePublicParam), projectid);
      if obj.None? {
        return NotFound;
      }
      var allowed := HasObjectPermission("destroy", obj.value.userRole, policy);
      if !allowed.value {
        return PermissionDenied;
      }
      db := DeleteProject(db, projectid);
      r := Done;
    }

    /** `destroy` with the lookup and the permission check first: the files and the record
        go together, and a refused request leaves both. */
    method Destroy(user: UserId, projectid: ProjectId, includePublicParam: Option<string>) returns (r: Outcome)
      modifies this
      ensures var obj := FindProject(ListProjects(old(db), user, includePublicParam), projectid);
        (r == NotFound <==> obj.None?)
        && (r == Done <==> obj.Some? && obj.value.userRole in policy.rolesCanDelete)
      ensures r == Done ==> db == DeleteProject(old(db), projectid) && storage == Purge(old(storage), ProjectPrefix(projectid))
      ensures r != Done ==> db == old(db) && storage == old(storage)
    {
      var obj := FindProject(ListProjects(db, user, includePublicParam), projectid);
      if obj.None? {
        return NotFound;
      }
      var allowed := HasObjectPermission("destroy", obj.value.userRole, policy);
      if !allowed.value {
        return PermissionDenied;
      }
      storage := Purge(storage, ProjectPrefix(projectid));
      db := DeleteProject(db, projectid);
      r := Done;
    }
  }

  /** A user with no route to a private project sends DELETE for it: the request is refused
      with 404, yet the as-written `destroy` has already emptied the project's files. */
  method StrangerWipesFilesAsWritten() returns (r: Outcome, filesLeft: set<string>, projectsLeft: nat)
    ensures r == NotFound && filesLeft == {} && projectsLeft == 1
  {
    var owner := User(1, "owner", "", "", Person);
    var stranger := User(2, "stranger", "", "", Person);
    var project := Project("p1", "project1", 1, false);
    var db := Db([owner, stranger], map[], map[], [], [], [project], []);
    var policy := Policy({Admin}, {Admin, Manager}, (u: UserId, o: UserId) => u == o);
    var api := new ProjectApi(db, {"projects/p1/project.qgs"}, policy);
    ResolveRoleRules(db, 2, project);
    assert ForUser(db, 2) == [];
    r := api.DestroyAsWritten(2, "p1", None);
    assert StartsWith("projects/p1/project.qgs", ProjectPrefix("p1"));
    filesLeft := api.storage;
    projectsLeft := |api.db.projects|;
  }
}
