/** Users, organizations, teams, projects and grants, and the role resolution that
    `ProjectQueryset.for_user` and `OrganizationQueryset.with_roles` compute over them
    (qfieldcloud/core/models.py). The database is a value: one sequence per table. */
module CoreModels {
  import opened Wrappers
  import opened Text

  // Messages of the exceptions and validation errors raised by this part of the code.
  const OwnerCollaboratorError := "Cannot add the project owner as a collaborator."
  const OrganizationOwnerCollaboratorError := "Cannot add the owner of the owning organization of the project as a collaborator."
  const OrganizationAdminCollaboratorError := "Cannot add an admin of the owning organization of the project as a collaborator."
  const OrganizationOwnerMemberError := "Cannot add the organization owner as a member."
  const TeamNonMemberError := "Cannot add team member that is not an organization member."
  const CollaboratorUniqueError := "duplicate key value violates unique constraint \"projectcollaborator_project_collaborator_uniq\""
  const ProjectNameUniqueError := "duplicate key value violates unique constraint \"project_owner_name_uniq\""
  const MembershipUniqueError := "duplicate key value violates unique constraint \"organization_organization_member_uniq\""
  const TeamMemberUniqueError := "duplicate key value violates unique constraint \"team_team_member_uniq\""

  type UserId = nat
  /** Project primary keys are UUIDs; the model keeps their text form. */
  type ProjectId = string

  /** `User.TYPE_CHOICES`. */
  datatype UserType = Person | Organization | Team

  datatype User = User(id: UserId, username: string, firstName: string, lastName: string, userType: UserType)

  /** `ProjectCollaborator.Roles`: plain choices, no order between them. */
  datatype ProjectRole = Admin | Manager | Editor | Reporter | Reader

  /** `OrganizationMember.Roles`. */
  datatype OrganizationRole = OrgAdmin | OrgMember

  /** `ProjectQueryset.RoleOrigins`. */
  datatype ProjectRoleOrigin = ProjectOwner | OrganizationOwner | OrganizationAdmin | Collaborator | TeamMember | Public

  /** `OrganizationQueryset.RoleOrigins`; the member origin's stored value is "organization_admin"
      whatever the member's role. */
  datatype OrganizationRoleOrigin = OrganizationOwnerOrigin | OrganizationMemberOrigin

  datatype OrganizationMember = OrganizationMember(organization: UserId, member: UserId, role: OrganizationRole, isPublic: bool)
  datatype TeamMembership = TeamMembership(team: UserId, member: UserId)
  datatype Project = Project(id: ProjectId, name: string, owner: UserId, isPublic: bool)
  datatype ProjectCollaborator = ProjectCollaborator(project: ProjectId, collaborator: UserId, role: ProjectRole)

  /** The tables the core reads. `organizations` maps an organization's id to its
      `organization_owner`; `teams` maps a team's id to its `team_organization`. */
  datatype Db = Db(
    users: seq<User>,
    organizations: map<UserId, UserId>,
    teams: map<UserId, UserId>,
    members: seq<OrganizationMember>,
    teamMembers: seq<TeamMembership>,
    projects: seq<Project>,
    collaborators: seq<ProjectCollaborator>)

  // ---------------------------------------------------------------------------
  // Case/When: the ordered, first-match-wins selection both querysets use.
  // ---------------------------------------------------------------------------

  datatype When<T> = When(condition: bool, value: T)

  /** SQL `CASE WHEN c1 THEN v1 WHEN c2 THEN v2 ... ELSE NULL END`. */
  function Case<T>(whens: seq<When<T>>): (r: Option<T>)
    ensures r.None? <==> forall k :: 0 <= k < |whens| ==> !whens[k].condition
  {
    if whens == [] then None
    else if whens[0].condition then Some(whens[0].value)
    else Case(whens[1..])
  }

  /** The first `When` whose condition holds decides the value. */
  lemma {:induction false} CaseFirstMatch<T>(whens: seq<When<T>>, k: nat)
    requires k < |whens| && whens[k].condition
    requires forall j :: 0 <= j < k ==> !whens[j].condition
    ensures Case(whens) == Some(whens[k].value)
  {
    if k > 0 {
      CaseFirstMatch(whens[1..], k - 1);
    }
  }

  // ---------------------------------------------------------------------------
  // Lookups the rules are made of.
  // ---------------------------------------------------------------------------

  predicate IsOrganizationOwner(db: Db, org: UserId, user: UserId)
  {
    org in db.organizations && db.organizations[org] == user
  }

  /** An `OrganizationMember` row with role ADMIN links `user` to `org`. */
  predicate IsOrganizationAdmin(db: Db, org: UserId, user: UserId)
  {
    exists m :: m in db.members && m.organization == org && m.member == user && m.role == OrgAdmin
  }

  predicate IsTeamMember(teamMembers: seq<TeamMembership>, team: UserId, user: UserId)
  {
    exists tm :: tm in teamMembers && tm.team == team && tm.member == user
  }

  /** The collaborator row of `user` on project `pid`, first in table order. */
  function DirectGrant(rows: seq<ProjectCollaborator>, pid: ProjectId, user: UserId): (r: Option<ProjectCollaborator>)
    ensures r.Some? ==> r.value in rows && r.value.project == pid && r.value.collaborator == user
    ensures r.None? <==> forall c :: c in rows ==> !(c.project == pid && c.collaborator == user)
  {
    if rows == [] then None
    else if rows[0].project == pid && rows[0].collaborator == user then Some(rows[0])
    else DirectGrant(rows[1..], pid, user)
  }

  /** A collaborator row on `pid` whose collaborator is a team that `user` belongs to,
      first in table order. */
  function TeamGrant(teamMembers: seq<TeamMembership>, rows: seq<ProjectCollaborator>, pid: ProjectId, user: UserId): (r: Option<ProjectCollaborator>)
    ensures r.Some? ==> r.value in rows && r.value.project == pid && IsTeamMember(teamMembers, r.value.collaborator, user)
    ensures r.None? <==> forall c :: c in rows ==> !(c.project == pid && IsTeamMember(teamMembers, c.collaborator, user))
  {
    if rows == [] then None
    else if rows[0].project == pid && IsTeamMember(teamMembers, rows[0].collaborator, user) then Some(rows[0])
    else TeamGrant(teamMembers, rows[1..], pid, user)
  }

  /** When exactly one team grant applies, it is the one used, whatever the table order. */
  lemma TeamGrantUnique(db: Db, pid: ProjectId, user: UserId, c: ProjectCollaborator)
    requires c in db.collaborators && c.project == pid && IsTeamMember(db.teamMembers, c.collaborator, user)
    requires forall d :: d in db.collaborators && d.project == pid && IsTeamMember(db.teamMembers, d.collaborator, user) ==> d == c
    ensures TeamGrant(db.teamMembers, db.collaborators, pid, user) == Some(c)
  {
  }

  // ---------------------------------------------------------------------------
  // ProjectQueryset.for_user
  // ---------------------------------------------------------------------------

  datatype Grant = Grant(role: ProjectRole, origin: ProjectRoleOrigin)

  /** The ordered `permissions_config` of `for_user`, evaluated for one project row. The value
      of a subquery rule whose condition fails is never read; Reader stands in for it. */
  function PermissionsConfig(db: Db, user: UserId, p: Project): (whens: seq<When<Grant>>)
    ensures |whens| == 6
  {
    var direct := DirectGrant(db.collaborators, p.id, user);
    var team := TeamGrant(db.teamMembers, db.collaborators, p.id, user);
    [ When(p.owner == user, Grant(Admin, ProjectOwner)),
      When(IsOrganizationOwner(db, p.owner, user), Grant(Admin, OrganizationOwner)),
      When(IsOrganizationAdmin(db, p.owner, user), Grant(Admin, OrganizationAdmin)),
      When(direct.Some?, Grant(if direct.Some? then direct.value.role else Reader, Collaborator)),
      When(team.Some?, Grant(if team.Some? then team.value.role else Reader, TeamMember)),
      When(p.isPublic, Grant(Reader, Public)) ]
  }

  /** The `user_role` and `user_role_origin` annotations of one project row. */
  function ResolveRole(db: Db, user: UserId, p: Project): Option<Grant>
  {
    Case(PermissionsConfig(db, user, p))
  }

  /** One of the three rules that give ADMIN through ownership applies. */
  predicate OwnershipRule(db: Db, user: UserId, p: Project)
  {
    p.owner == user || IsOrganizationOwner(db, p.owner, user) || IsOrganizationAdmin(db, p.owner, user)
  }

  /** The six rules, in order, first match wins; no match means no role. */
  lemma ResolveRoleRules(db: Db, user: UserId, p: Project)
    ensures p.owner == user ==>
      ResolveRole(db, user, p) == Some(Grant(Admin, ProjectOwner))
    ensures p.owner != user && IsOrganizationOwner(db, p.owner, user) ==>
      ResolveRole(db, user, p) == Some(Grant(Admin, OrganizationOwner))
    ensures p.owner != user && !IsOrganizationOwner(db, p.owner, user) && IsOrganizationAdmin(db, p.owner, user) ==>
      ResolveRole(db, user, p) == Some(Grant(Admin, OrganizationAdmin))
    ensures !OwnershipRule(db, user, p) && DirectGrant(db.collaborators, p.id, user).Some? ==>
      ResolveRole(db, user, p) == Some(Grant(DirectGrant(db.collaborators, p.id, user).value.role, Collaborator))
    ensures !OwnershipRule(db, user, p) && DirectGrant(db.collaborators, p.id, user).None?
            && TeamGrant(db.teamMembers, db.collaborators, p.id, user).Some? ==>
      ResolveRole(db, user, p) == Some(Grant(TeamGrant(db.teamMembers, db.collaborators, p.id, user).value.role, TeamMember))
    ensures !OwnershipRule(db, user, p) && DirectGrant(db.collaborators, p.id, user).None?
            && TeamGrant(db.teamMembers, db.collaborators, p.id, user).None? ==>
      ResolveRole(db, user, p) == if p.isPublic then Some(Grant(Reader, Public)) else None
  {
    var w := PermissionsConfig(db, user, p);
    if p.owner == user {
      CaseFirstMatch(w, 0);
    } else if IsOrganizationOwner(db, p.owner, user) {
      CaseFirstMatch(w, 1);
    } else if IsOrganizationAdmin(db, p.owner, user) {
      CaseFirstMatch(w, 2);
    } else if DirectGrant(db.collaborators, p.id, user).Some? {
      CaseFirstMatch(w, 3);
    } else if TeamGrant(db.teamMembers, db.collaborators, p.id, user).Some? {
      CaseFirstMatch(w, 4);
    } else if p.isPublic {
      CaseFirstMatch(w, 5);
    }
  }

  /** The public rule gives READER and nothing more, and only when every earlier rule failed;
      a public project always gets a role. */
  lemma PublicRuleIsReaderOnly(db: Db, user: UserId, p: Project)
    ensures ResolveRole(db, user, p).Some? && ResolveRole(db, user, p).value.origin == Public ==>
      ResolveRole(db, user, p).value.role == Reader && p.isPublic && !OwnershipRule(db, user, p)
      && DirectGrant(db.collaborators, p.id, user).None? && TeamGrant(db.teamMembers, db.collaborators, p.id, user).None?
    ensures p.isPublic ==> ResolveRole(db, user, p).Some?
  {
    ResolveRoleRules(db, user, p);
  }

  datatype ProjectWithRole = ProjectWithRole(project: Project, userRole: ProjectRole, userRoleOrigin: ProjectRoleOrigin)

  /** Annotate each project row and drop those without a role (`exclude(user_role__isnull=True)`). */
  function Annotate(db: Db, user: UserId, ps: seq<Project>): (r: seq<ProjectWithRole>)
    ensures |r| <= |ps|
    ensures forall x :: x in r <==>
      x.project in ps && ResolveRole(db, user, x.project) == Some(Grant(x.userRole, x.userRoleOrigin))
  {
    if ps == [] then []
    else
      var head := match ResolveRole(db, user, ps[0])
        case None => []
        case Some(g) => [ProjectWithRole(ps[0], g.role, g.origin)];
      head + Annotate(db, user, ps[1..])
  }

  /** `Project.objects.for_user(user)`. */
  function ForUser(db: Db, user: UserId): seq<ProjectWithRole>
  {
    Annotate(db, user, db.projects)
  }

  /** A private project on which the user has no ownership, organization or grant route
      is not in `for_user` under any role. */
  lemma PrivateProjectInvisible(db: Db, user: UserId, p: Project)
    requires !p.isPublic && !OwnershipRule(db, user, p)
    requires DirectGrant(db.collaborators, p.id, user).None? && TeamGrant(db.teamMembers, db.collaborators, p.id, user).None?
    ensures forall x :: x in ForUser(db, user) ==> x.project != p
  {
    ResolveRoleRules(db, user, p);
  }

  /** Adding one collaborator row for a user with no earlier row on that project changes that
      user's view of that project only: it gets the row's role with origin `collaborator`,
      unless an ownership rule already applies. */
  lemma AddCollaboratorEffect(db: Db, c: ProjectCollaborator, q: Project)
    requires DirectGrant(db.collaborators, c.project, c.collaborator).None?
    ensures ResolveRole(db.(collaborators := db.collaborators + [c]), c.collaborator, q) ==
      if q.id == c.project && !OwnershipRule(db, c.collaborator, q) then Some(Grant(c.role, Collaborator))
      else ResolveRole(db, c.collaborator, q)
  {
    if q.id != c.project {
      AddCollaboratorOtherProject(db, c, q);
    } else if !OwnershipRule(db, c.collaborator, q) {
      AddCollaboratorSameProject(db, c, q);
    } else {
      AddCollaboratorOwnership(db, c, q);
    }
  }

  lemma AddCollaboratorOtherProject(db: Db, c: ProjectCollaborator, q: Project)
    requires q.id != c.project
    ensures ResolveRole(db.(collaborators := db.collaborators + [c]), c.collaborator, q) == ResolveRole(db, c.collaborator, q)
  {
    var db' := db.(collaborators := db.collaborators + [c]);
    var u := c.collaborator;
    DirectGrantAppendOther(db.collaborators, c, q.id, u);
    TeamGrantAppendOther(db.teamMembers, db.collaborators, c, q.id, u);
    assert IsOrganizationAdmin(db', q.owner, u) == IsOrganizationAdmin(db, q.owner, u);
    assert PermissionsConfig(db', u, q) == PermissionsConfig(db, u, q);
  }

  lemma AddCollaboratorSameProject(db: Db, c: ProjectCollaborator, q: Project)
    requires DirectGrant(db.collaborators, c.project, c.collaborator).None?
    requires q.id == c.project && !OwnershipRule(db, c.collaborator, q)
    ensures ResolveRole(db.(collaborators := db.collaborators + [c]), c.collaborator, q) == Some(Grant(c.role, Collaborator))
  {
    var db' := db.(collaborators := db.collaborators + [c]);
    var u := c.collaborator;
    assert IsOrganizationAdmin(db', q.owner, u) == IsOrganizationAdmin(db, q.owner, u);
    assert DirectGrant(db'.collaborators, q.id, u) == Some(c);
    CaseFirstMatch(PermissionsConfig(db', u, q), 3);
  }

  lemma AddCollaboratorOwnership(db: Db, c: ProjectCollaborator, q: Project)
    requires OwnershipRule(db, c.collaborator, q)
    ensures ResolveRole(db.(collaborators := db.collaborators + [c]), c.collaborator, q) == ResolveRole(db, c.collaborator, q)
  {
    var db' := db.(collaborators := db.collaborators + [c]);
    var u := c.collaborator;
    assert IsOrganizationAdmin(db', q.owner, u) == IsOrganizationAdmin(db, q.owner, u);
    var w, w' := PermissionsConfig(db, u, q), PermissionsConfig(db', u, q);
    if q.owner == u {
      CaseFirstMatch(w, 0);
      CaseFirstMatch(w', 0);
    } else if IsOrganizationOwner(db, q.owner, u) {
      CaseFirstMatch(w, 1);
      CaseFirstMatch(w', 1);
    } else {
      CaseFirstMatch(w, 2);
      CaseFirstMatch(w', 2);
    }
  }

  /** A row for another project does not change which direct grant applies. */
  lemma {:induction false} DirectGrantAppendOther(rows: seq<ProjectCollaborator>, c: ProjectCollaborator, pid: ProjectId, u: UserId)
    requires c.project != pid
    ensures DirectGrant(rows + [c], pid, u) == DirectGrant(rows, pid, u)
  {
    if rows != [] {
      assert (rows + [c])[1..] == rows[1..] + [c];
      DirectGrantAppendOther(rows[1..], c, pid, u);
    }
  }

  /** A row for another project does not change which team grant applies. */
  lemma {:induction false} TeamGrantAppendOther(teamMembers: seq<TeamMembership>, rows: seq<ProjectCollaborator>, c: ProjectCollaborator, pid: ProjectId, u: UserId)
    requires c.project != pid
    ensures TeamGrant(teamMembers, rows + [c], pid, u) == TeamGrant(teamMembers, rows, pid, u)
  {
    if rows != [] {
      assert (rows + [c])[1..] == rows[1..] + [c];
      TeamGrantAppendOther(teamMembers, rows[1..], c, pid, u);
    }
  }

  // ---------------------------------------------------------------------------
  // OrganizationQueryset.with_roles / of_user
  // ---------------------------------------------------------------------------

  datatype Membership = Membership(role: OrganizationRole, origin: OrganizationRoleOrigin, isPublic: bool)

  /** The membership row of `user` in `org`, first in table order. */
  function MembershipRow(rows: seq<OrganizationMember>, org: UserId, user: UserId): (r: Option<OrganizationMember>)
    ensures r.Some? ==> r.value in rows && r.value.organization == org && r.value.member == user
    ensures r.None? <==> forall m :: m in rows ==> !(m.organization == org && m.member == user)
  {
    if rows == [] then None
    else if rows[0].organization == org && rows[0].member == user then Some(rows[0])
    else MembershipRow(rows[1..], org, user)
  }

  /** The two-rule `permissions_config` of `with_roles` for one organization. */
  function OrganizationConfig(db: Db, user: UserId, org: UserId): seq<When<Membership>>
  {
    var row := MembershipRow(db.members, org, user);
    [ When(IsOrganizationOwner(db, org, user), Membership(OrgAdmin, OrganizationOwnerOrigin, true)),
      When(row.Some?, if row.Some? then Membership(row.value.role, OrganizationMemberOrigin, row.value.isPublic)
                      else Membership(OrgMember, OrganizationMemberOrigin, false)) ]
  }

  /** `Organization.objects.with_roles(user)`: every organization, annotated (None = NULL). */
  function WithRoles(db: Db, user: UserId): (r: map<UserId, Option<Membership>>)
    ensures r.Keys == db.organizations.Keys
  {
    map org | org in db.organizations :: Case(OrganizationConfig(db, user, org))
  }

  /** `Organization.objects.of_user(user)`: only the annotated organizations. */
  function OfUser(db: Db, user: UserId): (r: map<UserId, Membership>)
    ensures r.Keys <= db.organizations.Keys
  {
    var w := WithRoles(db, user);
    map org | org in w && w[org].Some? :: w[org].value
  }

  /** The owner gets ADMIN, origin owner and `is_public` True; otherwise a member gets the
      row's role and `is_public` with the member origin; anyone else is dropped by `of_user`. */
  lemma OrganizationRoleRules(db: Db, user: UserId, org: UserId)
    requires org in db.organizations
    ensures IsOrganizationOwner(db, org, user) ==>
      org in OfUser(db, user) && OfUser(db, user)[org] == Membership(OrgAdmin, OrganizationOwnerOrigin, true)
    ensures !IsOrganizationOwner(db, org, user) && MembershipRow(db.members, org, user).Some? ==>
      var m := MembershipRow(db.members, org, user).value;
      org in OfUser(db, user) && OfUser(db, user)[org] == Membership(m.role, OrganizationMemberOrigin, m.isPublic)
    ensures org in OfUser(db, user) <==> IsOrganizationOwner(db, org, user) || MembershipRow(db.members, org, user).Some?
  {
    var w := OrganizationConfig(db, user, org);
    if IsOrganizationOwner(db, org, user) {
      CaseFirstMatch(w, 0);
    } else if MembershipRow(db.members, org, user).Some? {
      CaseFirstMatch(w, 1);
    }
  }

  // ---------------------------------------------------------------------------
  // clean() validators and unique constraints
  // ---------------------------------------------------------------------------

  datatype Validation = Accepted | Rejected(message: string)

  /** `ProjectCollaborator.clean`: the owner, the owning organization's owner and an ADMIN
      member of the owning organization cannot be collaborators. */
  function CleanCollaborator(db: Db, project: Project, collaborator: UserId): (r: Validation)
    ensures r.Rejected? <==>
      (project.owner == collaborator || IsOrganizationOwner(db, project.owner, collaborator)
       || (project.owner in db.organizations && IsOrganizationAdmin(db, project.owner, collaborator)))
  {
    if project.owner == collaborator then
      Rejected(OwnerCollaboratorError)
    else if project.owner in db.organizations then
      if db.organizations[project.owner] == collaborator then
        Rejected(OrganizationOwnerCollaboratorError)
      else if IsOrganizationAdmin(db, project.owner, collaborator) then
        Rejected(OrganizationAdminCollaboratorError)
      else Accepted
    else Accepted
  }

  /** A grant that `clean` accepts is the one that decides the user's role on the project:
      its role, with origin `collaborator`. */
  lemma AcceptedGrantDecidesRole(db: Db, project: Project, c: ProjectCollaborator)
    requires c.project == project.id && DirectGrant(db.collaborators, project.id, c.collaborator) == Some(c)
    requires CleanCollaborator(db, project, c.collaborator) == Accepted
    requires forall m :: m in db.members ==> m.organization in db.organizations
    ensures ResolveRole(db, c.collaborator, project) == Some(Grant(c.role, Collaborator))
  {
    ResolveRoleRules(db, c.collaborator, project);
  }

  /** `OrganizationMember.clean`: the organization's owner cannot be a member. */
  function CleanOrganizationMember(db: Db, m: OrganizationMember): (r: Validation)
    requires m.organization in db.organizations
    ensures r.Rejected? <==> IsOrganizationOwner(db, m.organization, m.member)
  {
    if db.organizations[m.organization] == m.member then Rejected(OrganizationOwnerMemberError)
    else Accepted
  }

  /** `TeamMember.clean`: only members of the team's organization can join the team. */
  function CleanTeamMember(db: Db, tm: TeamMembership): (r: Validation)
    requires tm.team in db.teams
    ensures r.Rejected? <==> MembershipRow(db.members, db.teams[tm.team], tm.member).None?
  {
    if MembershipRow(db.members, db.teams[tm.team], tm.member).None? then
      Rejected(TeamNonMemberError)
    else Accepted
  }

  /** Every membership row passed `OrganizationMember.clean`. */
  ghost predicate MembersClean(db: Db)
  {
    forall m :: m in db.members ==> m.organization in db.organizations && !IsOrganizationOwner(db, m.organization, m.member)
  }

  /** With clean memberships, the owner of a team's organization is refused as a team member. */
  lemma OrganizationOwnerNotTeamMember(db: Db, team: UserId)
    requires MembersClean(db) && team in db.teams && db.teams[team] in db.organizations
    ensures CleanTeamMember(db, TeamMembership(team, db.organizations[db.teams[team]])).Rejected?
  {
  }

  /** `projectcollaborator_project_collaborator_uniq`. */
  ghost predicate UniqueCollaborators(db: Db)
  {
    forall i, j :: 0 <= i < j < |db.collaborators| ==>
      db.collaborators[i].project != db.collaborators[j].project
      || db.collaborators[i].collaborator != db.collaborators[j].collaborator
  }

  /** `project_owner_name_uniq`. */
  ghost predicate UniqueProjectNames(db: Db)
  {
    forall i, j :: 0 <= i < j < |db.projects| ==>
      db.projects[i].owner != db.projects[j].owner || db.projects[i].name != db.projects[j].name
  }

  /** Inserting a collaborator row; the unique constraint refuses a second row for the same
      (project, collaborator) pair. */
  function InsertCollaborator(db: Db, c: ProjectCollaborator): (r: Result<Db>)
    ensures r.Success? <==> DirectGrant(db.collaborators, c.project, c.collaborator).None?
    ensures r.Success? ==> r.value == db.(collaborators := db.collaborators + [c])
    ensures r.Success? && UniqueCollaborators(db) ==> UniqueCollaborators(r.value)
  {
    if DirectGrant(db.collaborators, c.project, c.collaborator).Some? then
      Failure(CollaboratorUniqueError)
    else
      var db' := db.(collaborators := db.collaborators + [c]);
      assert forall i :: 0 <= i < |db.collaborators| ==> db.collaborators[i] in db.collaborators;
      Success(db')
  }

  /** Inserting a project row; the unique constraint refuses a second project with the same
      owner and name. */
  function InsertProject(db: Db, p: Project): (r: Result<Db>)
    ensures r.Success? <==> forall q :: q in db.projects ==> q.owner != p.owner || q.name != p.name
    ensures r.Success? ==> r.value == db.(projects := db.projects + [p])
    ensures r.Success? && UniqueProjectNames(db) ==> UniqueProjectNames(r.value)
  {
    if exists q :: q in db.projects && q.owner == p.owner && q.name == p.name then
      Failure(ProjectNameUniqueError)
    else
      assert forall i :: 0 <= i < |db.projects| ==> db.projects[i] in db.projects;
      Success(db.(projects := db.projects + [p]))
  }

  /** `organization_organization_member_uniq`. */
  ghost predicate UniqueMembers(db: Db)
  {
    forall i, j :: 0 <= i < j < |db.members| ==>
      db.members[i].organization != db.members[j].organization || db.members[i].member != db.members[j].member
  }

  /** Inserting a membership row; the unique constraint refuses a second row for the same
      (organization, member) pair. */
  function InsertOrganizationMember(db: Db, m: OrganizationMember): (r: Result<Db>)
    ensures r.Success? <==> MembershipRow(db.members, m.organization, m.member).None?
    ensures r.Success? ==> r.value == db.(members := db.members + [m])
    ensures r.Success? && UniqueMembers(db) ==> UniqueMembers(r.value)
  {
    if MembershipRow(db.members, m.organization, m.member).Some? then
      Failure(MembershipUniqueError)
    else
      assert forall i :: 0 <= i < |db.members| ==> db.members[i] in db.members;
      Success(db.(members := db.members + [m]))
  }

  /** `team_team_member_uniq`. */
  ghost predicate UniqueTeamMembers(db: Db)
  {
    forall i, j :: 0 <= i < j < |db.teamMembers| ==> db.teamMembers[i] != db.teamMembers[j]
  }

  /** Inserting a team membership row; the unique constraint refuses a second row for the same
      (team, member) pair. */
  function InsertTeamMember(db: Db, tm: TeamMembership): (r: Result<Db>)
    ensures r.Success? <==> !IsTeamMember(db.teamMembers, tm.team, tm.member)
    ensures r.Success? ==> r.value == db.(teamMembers := db.teamMembers + [tm])
    ensures r.Success? && UniqueTeamMembers(db) ==> UniqueTeamMembers(r.value)
  {
    if IsTeamMember(db.teamMembers, tm.team, tm.member) then
      Failure(TeamMemberUniqueError)
    else
      assert forall i :: 0 <= i < |db.teamMembers| ==> db.teamMembers[i] in db.teamMembers;
      Success(db.(teamMembers := db.teamMembers + [tm]))
  }

  // ---------------------------------------------------------------------------
  // Project.name validation
  // ---------------------------------------------------------------------------

  /** A character of the class `[a-zA-Z0-9-_\.]`. */
  predicate IsNameChar(c: char)
  {
    ('a' <= c <= 'z') || ('A' <= c <= 'Z') || ('0' <= c <= '9') || c == '-' || c == '_' || c == '.'
  }

  function AllNameChars(s: string): (ok: bool)
    ensures ok <==> forall i :: 0 <= i < |s| ==> IsNameChar(s[i])
  {
    if s == [] then true else IsNameChar(s[0]) && AllNameChars(s[1..])
  }

  /** The name field's validators as written: `max_length=255` and a search for
      `^[a-zA-Z0-9-_\.]+$`, where Python's `$` also matches just before a final newline. */
  function ProjectNameMatchesAsWritten(name: string): (ok: bool)
    ensures ok <==> (|name| <= 255 &&
      exists n :: 1 <= n <= |name| && AllNameChars(name[..n]) && (n == |name| || (n == |name| - 1 && name[n] == '\n')))
  {
    if |name| > 255 || |name| == 0 then false
    else if name[|name| - 1] == '\n' then
      assert name[..|name| - 1][..|name| - 1] == name[..|name| - 1];
      |name| >= 2 && AllNameChars(name[..|name| - 1])
    else
      assert name[..|name|] == name;
      AllNameChars(name)
  }

  /** A trailing newline passes the validator as written. */
  lemma TrailingNewlineAccepted()
    ensures ProjectNameMatchesAsWritten("project1\n")
  {
    assert AllNameChars("project1\n"[..8]);
  }

  /** The evident intent (`\Z` instead of `$`): 1 to 255 characters, each a letter, digit,
      `-`, `_` or `.`. */
  function ValidProjectName(name: string): (ok: bool)
    ensures ok <==> 1 <= |name| <= 255 && forall i :: 0 <= i < |name| ==> IsNameChar(name[i])
  {
    1 <= |name| <= 255 && AllNameChars(name)
  }

  /** The two validators agree except on a name that ends with a newline. */
  lemma NameValidatorsAgreeWithoutNewline(name: string)
    requires name == [] || name[|name| - 1] != '\n'
    ensures ProjectNameMatchesAsWritten(name) == ValidProjectName(name)
  {
    if ProjectNameMatchesAsWritten(name) {
      var n :| 1 <= n <= |name| && AllNameChars(name[..n]) && (n == |name| || (n == |name| - 1 && name[n] == '\n'));
      assert name[..n] == name;
    }
  }

  // ---------------------------------------------------------------------------
  // Team.teamname and User.username_with_full_name
  // ---------------------------------------------------------------------------

  /** The prefix a team's username carries: `@{organization username}/`. */
  function TeamPrefix(organizationUsername: string): (r: string)
    ensures |r| >= 2 && r[0] == '@'
  {
    "@" + organizationUsername + "/"
  }

  /** `Team.teamname`: the username with every `@{org}/` removed. */
  function TeamName(username: string, organizationUsername: string): (r: string)
    ensures !Contains(username, TeamPrefix(organizationUsername)) ==> r == username
    ensures forall rest :: (username == TeamPrefix(organizationUsername) + rest
      && !Contains(rest, TeamPrefix(organizationUsername))) ==> r == rest
  {
    var prefix := TeamPrefix(organizationUsername);
    RemovePrefixFacts(username, prefix);
    ReplaceAll(username, prefix, "")
  }

  /** Removing every occurrence of a pattern leaves a string without it unchanged, and strips it
      from the front of a string that holds it only there. */
  lemma RemovePrefixFacts(username: string, prefix: string)
    requires |prefix| > 0
    ensures !Contains(username, prefix) ==> ReplaceAll(username, prefix, "") == username
    ensures forall rest :: username == prefix + rest && !Contains(rest, prefix) ==> ReplaceAll(username, prefix, "") == rest
  {
    if !Contains(username, prefix) {
      ReplaceAllAbsent(username, prefix, "");
    }
    forall rest | username == prefix + rest && !Contains(rest, prefix)
      ensures ReplaceAll(username, prefix, "") == rest
    {
      assert username[..|prefix|] == prefix && username[|prefix|..] == rest;
      ReplaceAllAbsent(rest, prefix, "");
    }
  }

  /** `User.username_with_full_name`: the username, followed by the stripped full name in
      parentheses when that is not empty. */
  function UsernameWithFullName(u: User): (r: string)
    ensures StartsWith(r, u.username)
    ensures r == u.username <==>
      (forall i :: 0 <= i < |u.firstName| ==> IsSpace(u.firstName[i]))
      && (forall i :: 0 <= i < |u.lastName| ==> IsSpace(u.lastName[i]))
    ensures r != u.username ==> r == u.username + " (" + Strip(u.firstName + " " + u.lastName) + ")"
  {
    var stripped := Strip(u.firstName + " " + u.lastName);
    StripAroundSpace(u.firstName, u.lastName);
    if stripped != [] then
      var r := u.username + " (" + stripped + ")";
      assert r[..|u.username|] == u.username && |r| > |u.username|;
      r
    else
      u.username
  }

  /** `(a + " " + b).strip()` is empty exactly when `a` and `b` are all whitespace. */
  lemma StripAroundSpace(a: string, b: string)
    ensures Strip(a + " " + b) == [] <==>
      (forall i :: 0 <= i < |a| ==> IsSpace(a[i])) && (forall i :: 0 <= i < |b| ==> IsSpace(b[i]))
  {
    var full := a + " " + b;
    if Strip(full) == [] {
      forall i | 0 <= i < |a|
        ensures IsSpace(a[i])
      {
        assert full[i] == a[i];
      }
      forall i | 0 <= i < |b|
        ensures IsSpace(b[i])
      {
        assert full[|a| + 1 + i] == b[i];
      }
    }
  }

  // ---------------------------------------------------------------------------
  // Deltas, jobs and Delta.get_status_summary
  // ---------------------------------------------------------------------------

  /** `Delta.Status`. */
  datatype DeltaStatus = Pending | Started | Applied | Conflict | NotApplied | Error | Ignored | Unpermitted

  /** The value each status is stored as. */
  function StatusValue(s: DeltaStatus): string
  {
    match s
    case Pending => "pending"
    case Started => "started"
    case Applied => "applied"
    case Conflict => "conflict"
    case NotApplied => "not_applied"
    case Error => "error"
    case Ignored => "ignored"
    case Unpermitted => "unpermitted"
  }

  /** `Delta.Status.choices`, in declaration order. */
  const DeltaStatuses: seq<DeltaStatus> := [Pending, Started, Applied, Conflict, NotApplied, Error, Ignored, Unpermitted]

  lemma DeltaStatusesComplete(s: DeltaStatus)
    ensures s in DeltaStatuses
  {
  }

  /** `Job.Status`. */
  datatype JobStatus = JobPending | JobQueued | JobStarted | JobFinished | JobStopped | JobFailed

  /** A row of the job table, as far as the admin list filters read it. */
  datatype Job = Job(id: nat, project: ProjectId, status: JobStatus)

  /** What the container reported for one delta (an entry of `delta_feedback`). */
  datatype DeltaFeedback = DeltaFeedback(deltaId: nat, status: string, modifiedPk: Option<string>)

  /** The JSON content of a delta, as far as the core reads it. */
  datatype DeltaContent = DeltaContent(clientId: Option<string>, localPk: Option<string>, body: string)

  datatype Delta = Delta(
    id: nat,
    project: ProjectId,
    content: DeltaContent,
    lastStatus: DeltaStatus,
    lastFeedback: Option<DeltaFeedback>,
    lastModifiedPk: Option<string>)

  /** One row of `values("last_status").annotate(count=...)`: the stored text and its count. */
  datatype StatusCount = StatusCount(lastStatus: string, count: nat)

  /** What `rows_as_dict.get(value, 0)` holds after the first loop: the count of the last row
      with that status, or 0. */
  function LastCountFor(rows: seq<StatusCount>, value: string): nat
  {
    if rows == [] then 0
    else if rows[|rows| - 1].lastStatus == value then rows[|rows| - 1].count
    else LastCountFor(rows[..|rows| - 1], value)
  }

  /** `Delta.get_status_summary`: one entry per status, filled from the rows, 0 when absent;
      row values that are not statuses are dropped. */
  method GetStatusSummary(rows: seq<StatusCount>) returns (counts: map<DeltaStatus, nat>)
    ensures forall s: DeltaStatus :: s in counts && counts[s] == LastCountFor(rows, StatusValue(s))
  {
    var rowsAsDict: map<string, nat> := map[];
    var i := 0;
    while i < |rows|
      invariant 0 <= i <= |rows|
      invariant forall v :: v in rowsAsDict ==> rowsAsDict[v] == LastCountFor(rows[..i], v)
      invariant forall v :: v !in rowsAsDict ==> LastCountFor(rows[..i], v) == 0
    {
      assert rows[..i + 1][..i] == rows[..i];
      rowsAsDict := rowsAsDict[rows[i].lastStatus := rows[i].count];
      i := i + 1;
    }
    assert rows[..i] == rows;
    counts := map[];
    var k := 0;
    while k < |DeltaStatuses|
      invariant 0 <= k <= |DeltaStatuses|
      invariant forall s :: s in counts <==> s in DeltaStatuses[..k]
      invariant forall s :: s in counts ==> counts[s] == LastCountFor(rows, StatusValue(s))
    {
      var status := DeltaStatuses[k];
      var c := if StatusValue(status) in rowsAsDict then rowsAsDict[StatusValue(status)] else 0;
      counts := counts[status := c];
      k := k + 1;
    }
    assert DeltaStatuses[..k] == DeltaStatuses;
    forall s: DeltaStatus
      ensures s in counts
    {
      DeltaStatusesComplete(s);
    }
  }

  /** How many of the given stored statuses equal `value`. */
  function CountOf(statuses: seq<string>, value: string): nat
  {
    if statuses == [] then 0
    else (if statuses[|statuses| - 1] == value then 1 else 0) + CountOf(statuses[..|statuses| - 1], value)
  }

  /** The rows a GROUP BY on `last_status` returns for these deltas: one row per value that occurs. */
  ghost predicate GroupedRows(rows: seq<StatusCount>, statuses: seq<string>)
  {
    (forall i, j :: 0 <= i < j < |rows| ==> rows[i].lastStatus != rows[j].lastStatus)
    && (forall i :: 0 <= i < |rows| ==> rows[i].count == CountOf(statuses, rows[i].lastStatus))
    && (forall v :: v in statuses ==> exists i :: 0 <= i < |rows| && rows[i].lastStatus == v)
  }

  /** On grouped rows, the summary holds the true number of deltas in each status. */
  lemma SummaryCountsDeltas(rows: seq<StatusCount>, statuses: seq<string>, value: string)
    requires GroupedRows(rows, statuses)
    ensures LastCountFor(rows, value) == CountOf(statuses, value)
  {
    if exists i :: 0 <= i < |rows| && rows[i].lastStatus == value {
      var i :| 0 <= i < |rows| && rows[i].lastStatus == value;
      LastCountIsUnique(rows, value, i);
    } else {
      LastCountAbsent(rows, value);
      CountOfAbsent(statuses, value);
    }
  }

  lemma {:induction false} LastCountIsUnique(rows: seq<StatusCount>, value: string, i: nat)
    requires i < |rows| && rows[i].lastStatus == value
    requires forall j :: 0 <= j < |rows| && j != i ==> rows[j].lastStatus != value
    ensures LastCountFor(rows, value) == rows[i].count
  {
    if i != |rows| - 1 {
      var front := rows[..|rows| - 1];
      assert front[i] == rows[i];
      LastCountIsUnique(front, value, i);
    }
  }

  lemma {:induction false} LastCountAbsent(rows: seq<StatusCount>, value: string)
    requires forall j :: 0 <= j < |rows| ==> rows[j].lastStatus != value
    ensures LastCountFor(rows, value) == 0
  {
    if rows != [] {
      LastCountAbsent(rows[..|rows| - 1], value);
    }
  }

  lemma {:induction false} CountOfAbsent(statuses: seq<string>, value: string)
    requires value !in statuses
    ensures CountOf(statuses, value) == 0
  {
    if statuses != [] {
      CountOfAbsent(statuses[..|statuses| - 1], value);
    }
  }
}
