/**
 * The department handlers of controllers/departmentController.js that carry
 * logic: create and update answer a duplicate name with 400 and a missing
 * department with 404; delete is refused while a team or a user still
 * references the department, the teams being counted first.
 */
module DepartmentController {
  import opened Wrappers
  import opened Table
  import opened UserModel
  import opened TeamModel
  import opened DepartmentModel

  const DuplicateName: string := "Department with this name already exists."
  const DepartmentNotFound: string := "Department not found"
  const TeamsAttached: string := "Cannot delete department: associated with one or more teams."
  const UsersAttached: string := "Cannot delete department: associated with one or more users."
  const DepartmentDeleted: string := "Department deleted successfully"

  /** A department request body; an absent key is `None`. */
  datatype DepartmentBody = DepartmentBody(name: Option<string>)

  /** `Team.countDocuments({ department: d })`. */
  function TeamCount(teams: seq<Row<Team>>, d: Id): (n: nat)
    ensures n <= |teams|
    ensures n > 0 <==> exists i :: 0 <= i < |teams| && teams[i].doc.department == d
  {
    if teams == [] then 0
    else
      assert forall i :: 1 <= i < |teams| ==> teams[i] == teams[1..][i - 1];
      (if teams[0].doc.department == d then 1 else 0) + TeamCount(teams[1..], d)
  }

  /** `User.countDocuments({ department: d })`. */
  function UserCount(users: seq<Row<User>>, d: Id): (n: nat)
    ensures n <= |users|
    ensures n > 0 <==> exists i :: 0 <= i < |users| && users[i].doc.department == Some(d)
  {
    if users == [] then 0
    else
      assert forall i :: 1 <= i < |users| ==> users[i] == users[1..][i - 1];
      (if users[0].doc.department == Some(d) then 1 else 0) + UserCount(users[1..], d)
  }

  /** A department at a position other than `except` already has the name (the unique index on `name`). */
  predicate NameTaken(rows: seq<Row<Department>>, name: Option<string>, except: int) {
    exists j :: 0 <= j < |rows| && j != except && rows[j].doc.name == name
  }

  /** `createDepartment`: 400 for a name already in use, otherwise the department is stored. */
  method Create(departments: Collection<Department>, body: DepartmentBody) returns (r: Response<Row<Department>>)
    requires departments.Valid() && NamesUnique(departments.rows)
    modifies departments
    ensures departments.Valid() && NamesUnique(departments.rows)
    ensures if NameTaken(old(departments.rows), body.name, -1) then
        r == BadRequest(DuplicateName) && departments.rows == old(departments.rows)
      else
        && r.Ok? && r.value.doc == Department(body.name) && r.value.id !in Ids(old(departments.rows))
        && departments.rows == old(departments.rows) + [r.value]
  {
    if NameTaken(departments.rows, body.name, -1) {
      return BadRequest(DuplicateName);
    }
    var doc := Department(body.name);
    var id := departments.Insert(doc);
    r := Ok(Row(id, doc));
  }

  /** `updateDepartment`: 404 for a missing department, 400 for a name another department has, otherwise merged. */
  method Update(departments: Collection<Department>, id: Id, body: DepartmentBody) returns (r: Response<Row<Department>>)
    requires departments.Valid() && NamesUnique(departments.rows)
    modifies departments
    ensures departments.Valid() && NamesUnique(departments.rows)
    ensures Ids(departments.rows) == Ids(old(departments.rows))
    ensures match Find(old(departments.rows), id)
      case None => r == NotFound(DepartmentNotFound) && departments.rows == old(departments.rows)
      case Some(i) =>
        var doc := Department(if body.name.Some? then body.name else old(departments.rows)[i].doc.name);
        if NameTaken(old(departments.rows), doc.name, i) then
          r == BadRequest(DuplicateName) && departments.rows == old(departments.rows)
        else
          r == Ok(Row(id, doc)) && departments.rows == old(departments.rows)[i := Row(id, doc)]
  {
    var found := Find(departments.rows, id);
    if found.None? {
      return NotFound(DepartmentNotFound);
    }
    var i := found.value;
    var doc := Department(if body.name.Some? then body.name else departments.rows[i].doc.name);
    if NameTaken(departments.rows, doc.name, i) {
      return BadRequest(DuplicateName);
    }
    ghost var before := departments.rows;
    departments.Put(i, doc);
    assert forall k :: 0 <= k < |before| ==> departments.rows[k].id == before[k].id;
    r := Ok(Row(id, doc));
  }

  /** Removing a department no team and no user references leaves every reference intact. */
  lemma DeleteLeavesNoReference(users: seq<Row<User>>, teams: seq<Row<Team>>, departments: seq<Row<Department>>, i: nat)
    requires DistinctIds(departments) && i < |departments|
    requires TeamRefsIntact(teams, departments) && UserRefsIntact(users, departments)
    requires TeamCount(teams, departments[i].id) == 0 && UserCount(users, departments[i].id) == 0
    ensures var rest := departments[..i] + departments[i + 1..];
      && departments[i].id !in Ids(rest)
      && TeamRefsIntact(teams, rest) && UserRefsIntact(users, rest)
  {
    IdsWithout(departments, i);
  }

  /**
   * `deleteDepartment`: the team count, then the user count, then existence;
   * a department that passes all three is removed.
   */
  method Delete(users: Collection<User>, teams: Collection<Team>, departments: Collection<Department>, id: Id)
    returns (r: Response<string>)
    requires departments.Valid()
    requires TeamRefsIntact(teams.rows, departments.rows) && UserRefsIntact(users.rows, departments.rows)
    modifies departments
    ensures departments.Valid()
    ensures TeamRefsIntact(teams.rows, departments.rows) && UserRefsIntact(users.rows, departments.rows)
    ensures
      if TeamCount(teams.rows, id) > 0 then
        r == BadRequest(TeamsAttached) && departments.rows == old(departments.rows)
      else if UserCount(users.rows, id) > 0 then
        r == BadRequest(UsersAttached) && departments.rows == old(departments.rows)
      else match Find(old(departments.rows), id)
        case None => r == NotFound(DepartmentNotFound) && departments.rows == old(departments.rows)
        case Some(i) =>
          && r == Ok(DepartmentDeleted)
          && departments.rows == old(departments.rows)[..i] + old(departments.rows)[i + 1..]
          && id !in Ids(departments.rows)
  {
    if TeamCount(teams.rows, id) > 0 {
      return BadRequest(TeamsAttached);
    }
    if UserCount(users.rows, id) > 0 {
      return BadRequest(UsersAttached);
    }
    var found := Find(departments.rows, id);
    if found.None? {
      return NotFound(DepartmentNotFound);
    }
    var i := found.value;
    ghost var before := departments.rows;
    DeleteLeavesNoReference(users.rows, teams.rows, before, i);
    departments.RemoveAt(i);
    assert departments.rows == before[..i] + before[i + 1..];
    r := Ok(DepartmentDeleted);
  }
}
