/**
 * The department record and the references other collections hold to it.
 * models/Department.js is not part of this model: a department is taken
 * to be a record whose `name` carries a unique index, with no other
 * validator, as the handlers' duplicate-name answers imply.
 */
module DepartmentModel {
  import opened Wrappers
  import opened Table
  import opened UserModel
  import opened TeamModel

  datatype Department = Department(name: Option<string>)

  /** The unique index on `name` (a missing name is indexed as null, so it too can clash). */
  ghost predicate NamesUnique(rows: seq<Row<Department>>) {
    forall i, j :: 0 <= i < j < |rows| ==> rows[i].doc.name != rows[j].doc.name
  }

  /** Every team's department is a stored department. */
  ghost predicate TeamRefsIntact(teams: seq<Row<Team>>, departments: seq<Row<Department>>) {
    forall i :: 0 <= i < |teams| ==> teams[i].doc.department in Ids(departments)
  }

  /** Every user's department, when set, is a stored department. */
  ghost predicate UserRefsIntact(users: seq<Row<User>>, departments: seq<Row<Department>>) {
    forall i :: 0 <= i < |users| && users[i].doc.department.Some? ==> users[i].doc.department.value in Ids(departments)
  }
}
