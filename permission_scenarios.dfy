/** The collaborator take-over scenario of the permission tests, played on the model: the owner
    lists and renames the project, a stranger sees nothing, a READER collaborator sees it but
    cannot rename it. */
module PermissionScenarios {
  import opened Wrappers
  import opened CoreModels
  import opened ProjectsViews

  /** `user1` owning the private `project1`, `user2`, and `organization1` owned by `user1`. */
  function SetUpDb(): Db
  {
    Db([User(1, "user1", "", "", Person), User(2, "user2", "", "", Person), User(3, "organization1", "", "", Organization)],
       map[3 := 1], map[], [], [], [Project("p1", "project1", 1, false)], [])
  }

  /** The database once `user1` has renamed the project. */
  function RenamedDb(): Db
  {
    SetUpDb().(projects := [Project("p1", "renamed-project", 1, false)])
  }

  /** `test_collaborator_project_takeover`, under any policy in which ADMIN may update a project
      and READER may not. */
  method CollaboratorProjectTakeover(policy: Policy)
    returns (ownerSees: nat, renamed: Outcome, strangerSees: nat, readerSees: nat, takeover: Outcome, finalName: string)
    requires Admin in policy.rolesCanUpdate && Reader !in policy.rolesCanUpdate
    ensures ownerSees == 1 && renamed == Done
    ensures strangerSees == 0
    ensures readerSees == 1 && takeover == PermissionDenied && finalName == "renamed-project"
  {
    var api := new ProjectApi(SetUpDb(), {}, policy);
    ownerSees, renamed, strangerSees := OwnerRenames(api);
    readerSees, takeover, finalName := ReaderTriesTakeover(api);
  }

  /** The first half of the scenario: the owner sees and renames the project; a stranger sees
      nothing. */
  method OwnerRenames(api: ProjectApi) returns (ownerSees: nat, renamed: Outcome, strangerSees: nat)
    requires api.db == SetUpDb() && Admin in api.policy.rolesCanUpdate
    modifies api
    ensures api.db == RenamedDb() && api.storage == old(api.storage)
    ensures ownerSees == 1 && renamed == Done && strangerSees == 0
  {
    var p := api.db.projects[0];
    ResolveRoleRules(api.db, 1, p);
    assert ForUser(api.db, 1) == [ProjectWithRole(p, Admin, ProjectOwner)];
    ownerSees := |ListProjects(api.db, 1, None)|;
    renamed := api.PartialUpdate(1, "p1", None, Some("renamed-project"), Some(1));
    assert api.db.projects == RenamedDb().projects;
    ResolveRoleRules(api.db, 2, RenamedDb().projects[0]);
    assert ForUser(api.db, 2) == [];
    strangerSees := |ListProjects(api.db, 2, None)|;
  }

  /** The second half: `user2` becomes a READER collaborator, then sees the project but cannot
      rename it. */
  method ReaderTriesTakeover(api: ProjectApi) returns (readerSees: nat, takeover: Outcome, finalName: string)
    requires api.db == RenamedDb() && Reader !in api.policy.rolesCanUpdate
    modifies api
    ensures readerSees == 1 && takeover == PermissionDenied && finalName == "renamed-project"
  {
    var renamedProject := api.db.projects[0];
    var grant := ProjectCollaborator("p1", 2, Reader);
    assert CleanCollaborator(api.db, renamedProject, 2).Accepted?;
    var inserted := InsertCollaborator(api.db, grant);
    api.db := inserted.value;
    assert DirectGrant(api.db.collaborators, "p1", 2) == Some(grant);
    ResolveRoleRules(api.db, 2, renamedProject);
    var row := ProjectWithRole(renamedProject, Reader, Collaborator);
    assert ForUser(api.db, 2) == [row];
    assert ExcludePublic([row]) == [row] + ExcludePublic([]);
    readerSees := |ListProjects(api.db, 2, None)|;
    takeover := api.PartialUpdate(2, "p1", None, Some("stolen-project"), Some(2));
    finalName := api.db.projects[0].name;
  }
}
