/**
 * The team handlers of controllers/teamController.js. Each one changes the
 * team collection and then rewrites the `team` and `department` fields of
 * the users concerned, one call of `updateUserTeamAndDepartment` at a
 * time; in `updateTeam` the calls run in an order that decides the result.
 */
module TeamController {
  import opened Wrappers
  import opened Table
  import opened UserModel
  import opened TeamModel
  import opened DepartmentModel

  const DepartmentNotFound: string := "Department not found."
  const LeaderNotFound: string := "Team Leader not found."
  const NotALeader: string := "Assigned user is not a Team Leader."
  const AlreadyLeads: string := "This user is already a Team Leader for another team."
  const TeamNotFound: string := "Team not found"
  const TeamValidationFailed: string := "Team validation failed"
  const TeamDeleted: string := "Team deleted successfully"

  /** A team request body; an absent key is `None`. */
  datatype TeamBody = TeamBody(name: Option<string>, department: Option<Id>, teamLeader: Option<Id>, members: Option<seq<Id>>)

  /** A user row with its team and department replaced. */
  function Moved(row: Row<User>, team: Option<Id>, dept: Option<Id>): Row<User> {
    Row(row.id, row.doc.(team := team, department := dept))
  }

  /**
   * `updateUserTeamAndDepartment(uid, team, dept)` on the user rows: the
   * user with identifier `uid` gets the pair; a missing user changes nothing.
   */
  function Assigned(rows: seq<Row<User>>, uid: Id, team: Option<Id>, dept: Option<Id>): (r: seq<Row<User>>)
    ensures |r| == |rows|
    ensures forall k :: 0 <= k < |rows| ==> r[k] == if rows[k].id == uid then Moved(rows[k], team, dept) else rows[k]
  {
    seq(|rows|, k requires 0 <= k < |rows| => if rows[k].id == uid then Moved(rows[k], team, dept) else rows[k])
  }

  /** The helper called for each identifier of `uids` in turn, all with the same pair. */
  function AssignedEach(rows: seq<Row<User>>, uids: seq<Id>, team: Option<Id>, dept: Option<Id>): (r: seq<Row<User>>)
    ensures |r| == |rows|
    decreases |uids|
  {
    if uids == [] then rows
    else Assigned(AssignedEach(rows, uids[..|uids| - 1], team, dept), uids[|uids| - 1], team, dept)
  }

  /**
   * Calling the helper for a list with one pair leaves every user named in
   * the list with that pair and every other user as it was, whatever the
   * order and repetitions of the list.
   */
  lemma {:induction false} AssignedEachAt(rows: seq<Row<User>>, uids: seq<Id>, team: Option<Id>, dept: Option<Id>)
    ensures |AssignedEach(rows, uids, team, dept)| == |rows|
    ensures forall k :: 0 <= k < |rows| ==>
      AssignedEach(rows, uids, team, dept)[k] == if rows[k].id in uids then Moved(rows[k], team, dept) else rows[k]
    decreases |uids|
  {
    if uids != [] {
      var init := uids[..|uids| - 1];
      AssignedEachAt(rows, init, team, dept);
      assert uids == init + [uids[|uids| - 1]];
    }
  }

  /** `updateUserTeamAndDepartment`. */
  method AssignUser(users: Collection<User>, uid: Id, team: Option<Id>, dept: Option<Id>)
    requires users.Valid()
    modifies users
    ensures users.Valid()
    ensures users.rows == Assigned(old(users.rows), uid, team, dept)
  {
    match Find(users.rows, uid)
    case None =>
      assert users.rows == Assigned(users.rows, uid, team, dept);
    case Some(i) =>
      ghost var before := users.rows;
      users.Put(i, users.rows[i].doc.(team := team, department := dept));
      assert users.rows == Assigned(before, uid, team, dept);
  }

  /** The users a team enlists: its leader, if any, then its members. */
  function Enlisted(leader: Option<Id>, members: seq<Id>): (r: seq<Id>)
    ensures forall u :: u in r <==> leader == Some(u) || u in members
  {
    (if leader.Some? then [leader.value] else []) + members
  }

  /**
   * The checks on a proposed leader: it exists, its role is Team Leader,
   * and it leads no team other than `except`.
   */
  function LeaderRefusal(users: seq<Row<User>>, teams: seq<Row<Team>>, uid: Id, except: Option<Id>): (r: Option<string>)
    ensures r.None? <==>
      && Find(users, uid).Some? && users[Find(users, uid).value].doc.role == TeamLeader
      && forall j :: 0 <= j < |teams| && Some(teams[j].id) != except ==> teams[j].doc.teamLeader != Some(uid)
  {
    match Find(users, uid)
    case None => Some(LeaderNotFound)
    case Some(k) =>
      if users[k].doc.role != TeamLeader then Some(NotALeader)
      else if LedElsewhere(teams, uid, except).Some? then Some(AlreadyLeads)
      else None
  }

  /** Why `createTeam` refuses a body, checked in the handler's order; none if it is accepted. */
  function CreateRefusal(users: seq<Row<User>>, teams: seq<Row<Team>>, departments: seq<Row<Department>>, b: TeamBody)
    : (r: Option<string>)
    ensures r.None? <==>
      && b.department.Some? && b.department.value in Ids(departments)
      && (b.teamLeader.Some? ==> LeaderRefusal(users, teams, b.teamLeader.value, None).None?)
      && b.name.Some? && b.name.value != ""
    ensures b.department.None? || b.department.value !in Ids(departments) ==> r == Some(DepartmentNotFound)
  {
    if b.department.None? || Find(departments, b.department.value).None? then Some(DepartmentNotFound)
    else if b.teamLeader.Some? && LeaderRefusal(users, teams, b.teamLeader.value, None).Some? then
      LeaderRefusal(users, teams, b.teamLeader.value, None)
    else if b.name.None? || b.name.value == "" then Some(TeamValidationFailed)
    else None
  }

  /** A new team keeps the table's invariants when `createTeam` accepts it. */
  lemma CreatedKeepsTeams(teams: seq<Row<Team>>, departments: seq<Row<Department>>, t: Row<Team>)
    requires LeadersUnique(teams) && AllWellFormed(teams) && TeamRefsIntact(teams, departments)
    requires t.doc.department in Ids(departments) && t.doc.name != ""
    requires t.doc.teamLeader.Some? ==> forall j :: 0 <= j < |teams| ==> teams[j].doc.teamLeader != t.doc.teamLeader
    ensures LeadersUnique(teams + [t]) && AllWellFormed(teams + [t]) && TeamRefsIntact(teams + [t], departments)
  {
  }

  /** Assigning users a department that exists, or none, keeps every user's reference intact. */
  lemma AssignedEachKeepsRefs(rows: seq<Row<User>>, departments: seq<Row<Department>>, uids: seq<Id>, team: Option<Id>, dept: Option<Id>)
    requires UserRefsIntact(rows, departments)
    requires dept.Some? ==> dept.value in Ids(departments)
    ensures UserRefsIntact(AssignedEach(rows, uids, team, dept), departments)
  {
    AssignedEachAt(rows, uids, team, dept);
  }

  /** Calling the helper for `a` and then for `b` is calling it for `a + b`. */
  lemma {:induction false} AssignedEachConcat(rows: seq<Row<User>>, a: seq<Id>, b: seq<Id>, team: Option<Id>, dept: Option<Id>)
    ensures AssignedEach(AssignedEach(rows, a, team, dept), b, team, dept) == AssignedEach(rows, a + b, team, dept)
    decreases |b|
  {
    if b != [] {
      var init := b[..|b| - 1];
      AssignedEachConcat(rows, a, init, team, dept);
      assert (a + b)[..|a + b| - 1] == a + init;
      assert (a + b)[|a + b| - 1] == b[|b| - 1];
    } else {
      assert a + b == a;
    }
  }

  /** `for (const id of uids) await updateUserTeamAndDepartment(id, team, dept)`. */
  method AssignAll(users: Collection<User>, uids: seq<Id>, team: Option<Id>, dept: Option<Id>)
    requires users.Valid()
    modifies users
    ensures users.Valid()
    ensures users.rows == AssignedEach(old(users.rows), uids, team, dept)
  {
    var j := 0;
    while j < |uids|
      invariant 0 <= j <= |uids|
      invariant users.Valid()
      invariant users.rows == AssignedEach(old(users.rows), uids[..j], team, dept)
    {
      assert uids[..j + 1][..j] == uids[..j];
      AssignUser(users, uids[j], team, dept);
      j := j + 1;
    }
    assert uids[..j] == uids;
  }

  /** The leader, if there is one, then each member gets the pair. */
  method AssignEnlisted(users: Collection<User>, leader: Option<Id>, members: seq<Id>, team: Option<Id>, dept: Option<Id>)
    requires users.Valid()
    modifies users
    ensures users.Valid()
    ensures users.rows == AssignedEach(old(users.rows), Enlisted(leader, members), team, dept)
  {
    var lead: seq<Id> := if leader.Some? then [leader.value] else [];
    if leader.Some? {
      AssignUser(users, leader.value, team, dept);
    }
    assert users.rows == AssignedEach(old(users.rows), lead, team, dept);
    ghost var mid := users.rows;
    AssignAll(users, members, team, dept);
    AssignedEachConcat(old(users.rows), lead, members, team, dept);
  }

  /**
   * `createTeam`: the department, then the leader, then the schema are
   * checked; the team is stored, its leader assigned, then each member.
   */
  method CreateTeam(users: Collection<User>, teams: Collection<Team>, departments: Collection<Department>, b: TeamBody)
    returns (r: Response<Row<Team>>)
    requires users.Valid() && teams.Valid() && departments.Valid()
    requires LeadersUnique(teams.rows) && AllWellFormed(teams.rows)
    requires TeamRefsIntact(teams.rows, departments.rows) && UserRefsIntact(users.rows, departments.rows)
    modifies users, teams
    ensures users.Valid() && teams.Valid()
    ensures LeadersUnique(teams.rows) && AllWellFormed(teams.rows)
    ensures TeamRefsIntact(teams.rows, departments.rows) && UserRefsIntact(users.rows, departments.rows)
    ensures match CreateRefusal(old(users.rows), old(teams.rows), departments.rows, b)
      case Some(m) => r == BadRequest(m) && users.rows == old(users.rows) && teams.rows == old(teams.rows)
      case None =>
        && r.Ok? && r.value.id !in Ids(old(teams.rows))
        && r.value.doc == Team(b.name.value, b.department.value, b.teamLeader, b.members.GetOr([]))
        && teams.rows == old(teams.rows) + [r.value]
        && users.rows == AssignedEach(old(users.rows), Enlisted(b.teamLeader, b.members.GetOr([])), Some(r.value.id), b.department)
  {
    var refusal := CreateRefusal(users.rows, teams.rows, departments.rows, b);
    if refusal.Some? {
      return BadRequest(refusal.value);
    }
    ghost var oldTeams := teams.rows;
    ghost var oldUsers := users.rows;
    var doc := Team(b.name.value, b.department.value, b.teamLeader, b.members.GetOr([]));
    assert doc.teamLeader.Some? ==> LeaderRefusal(oldUsers, oldTeams, doc.teamLeader.value, None).None?;
    var tid := teams.Insert(doc);
    r := Ok(Row(tid, doc));
    CreatedKeepsTeams(oldTeams, departments.rows, r.value);
    AssignedEachKeepsRefs(oldUsers, departments.rows, Enlisted(b.teamLeader, doc.members), Some(tid), b.department);
    AssignEnlisted(users, b.teamLeader, doc.members, Some(tid), b.department);
  }

  /** Why `updateTeam` refuses a body for an existing team `orig`, in the handler's order; none if it is accepted. */
  function UpdateRefusal(users: seq<Row<User>>, teams: seq<Row<Team>>, departments: seq<Row<Department>>,
                         tid: Id, orig: Team, b: TeamBody): (r: Option<string>)
    ensures r.None? <==>
      && (b.department.Some? && b.department.value != orig.department ==> b.department.value in Ids(departments))
      && (b.teamLeader.Some? && b.teamLeader != orig.teamLeader ==> LeaderRefusal(users, teams, b.teamLeader.value, Some(tid)).None?)
      && b.name != Some("")
  {
    if b.department.Some? && b.department.value != orig.department && Find(departments, b.department.value).None? then
      Some(DepartmentNotFound)
    else if b.teamLeader.Some? && b.teamLeader != orig.teamLeader && LeaderRefusal(users, teams, b.teamLeader.value, Some(tid)).Some? then
      LeaderRefusal(users, teams, b.teamLeader.value, Some(tid))
    else if b.name == Some("") then Some(TeamValidationFailed)
    else None
  }

  /**
   * The team `updateTeam` writes: name and department replaced when given;
   * leader and members always written, an absent one as null or empty.
   */
  function Revised(orig: Team, b: TeamBody): (t: Team)
    ensures t.teamLeader == b.teamLeader && t.members == b.members.GetOr([])
    ensures b.name.None? ==> t.name == orig.name
    ensures b.department.None? ==> t.department == orig.department
  {
    Team(b.name.GetOr(orig.name), b.department.GetOr(orig.department), b.teamLeader, b.members.GetOr([]))
  }

  /** The original members that are not in the new member list, in their original order. */
  function Dropped(before: seq<Id>, after: seq<Id>): (r: seq<Id>)
    ensures forall u :: u in r <==> u in before && u !in after
    decreases |before|
  {
    if before == [] then []
    else
      var init := before[..|before| - 1];
      var last := before[|before| - 1];
      assert before == init + [last];
      Dropped(init, after) + (if last in after then [] else [last])
  }

  /**
   * The user rows after `updateTeam`'s four steps: release the old leader if
   * it changed; assign the new leader; release the dropped members; assign
   * the new members.
   */
  function Reconciled(rows: seq<Row<User>>, cur: Option<Id>, next: Option<Id>, before: seq<Id>, after: seq<Id>,
                      tid: Id, dept: Id): (r: seq<Row<User>>)
    ensures |r| == |rows|
  {
    var s1 := if cur.Some? && cur != next then Assigned(rows, cur.value, None, None) else rows;
    var s2 := if next.Some? then Assigned(s1, next.value, Some(tid), Some(dept)) else s1;
    var s3 := AssignedEach(s2, Dropped(before, after), None, None);
    AssignedEach(s3, after, Some(tid), Some(dept))
  }

  /**
   * Where user `u` stands after `updateTeam`: in the new member list, or the
   * new leader outside the old member list, it joins the team; otherwise an
   * old member or the old leader is released; anyone else is untouched.
   */
  function Settled(row: Row<User>, cur: Option<Id>, next: Option<Id>, before: seq<Id>, after: seq<Id>,
                   tid: Id, dept: Id): Row<User>
  {
    var u := row.id;
    if u in after || (next == Some(u) && u !in before) then Moved(row, Some(tid), Some(dept))
    else if u in before || cur == Some(u) then Moved(row, None, None)
    else row
  }

  /** The four steps as seen by the user at position `k`. */
  lemma ReconciledRow(rows: seq<Row<User>>, cur: Option<Id>, next: Option<Id>, before: seq<Id>, after: seq<Id>,
                      tid: Id, dept: Id, k: nat)
    requires k < |rows|
    ensures |Reconciled(rows, cur, next, before, after, tid, dept)| == |rows|
    ensures Reconciled(rows, cur, next, before, after, tid, dept)[k] == Settled(rows[k], cur, next, before, after, tid, dept)
  {
    var row := rows[k];
    var u := row.id;
    var s1 := if cur.Some? && cur != next then Assigned(rows, cur.value, None, None) else rows;
    var s2 := if next.Some? then Assigned(s1, next.value, Some(tid), Some(dept)) else s1;
    var dropped := Dropped(before, after);
    var s3 := AssignedEach(s2, dropped, None, None);
    assert s1[k] == if cur == Some(u) && cur != next then Moved(row, None, None) else row;
    assert s2[k] == if next == Some(u) then Moved(row, Some(tid), Some(dept)) else s1[k];
    AssignedEachAt(s2, dropped, None, None);
    assert s3[k] == if u in dropped then Moved(row, None, None) else s2[k];
    AssignedEachAt(s3, after, Some(tid), Some(dept));
  }

  /** The order of the four steps, summed up user by user. */
  lemma ReconciledAt(rows: seq<Row<User>>, cur: Option<Id>, next: Option<Id>, before: seq<Id>, after: seq<Id>, tid: Id, dept: Id)
    ensures |Reconciled(rows, cur, next, before, after, tid, dept)| == |rows|
    ensures forall k :: 0 <= k < |rows| ==>
      Reconciled(rows, cur, next, before, after, tid, dept)[k] == Settled(rows[k], cur, next, before, after, tid, dept)
  {
    forall k | 0 <= k < |rows|
      ensures Reconciled(rows, cur, next, before, after, tid, dept)[k] == Settled(rows[k], cur, next, before, after, tid, dept)
    {
      ReconciledRow(rows, cur, next, before, after, tid, dept, k);
    }
  }

  /**
   * The ordering quirk: a new leader who was a member and is left out of the
   * new member list ends with no team, because the members are released
   * after the leader is assigned.
   */
  lemma NewLeaderReleased(rows: seq<Row<User>>, cur: Option<Id>, u: Id, before: seq<Id>, after: seq<Id>, tid: Id, dept: Id, k: nat)
    requires k < |rows| && rows[k].id == u && u in before && u !in after
    ensures Reconciled(rows, cur, Some(u), before, after, tid, dept)[k].doc.team.None?
    ensures Reconciled(rows, cur, Some(u), before, after, tid, dept)[k].doc.department.None?
  {
    ReconciledAt(rows, cur, Some(u), before, after, tid, dept);
  }

  /** Every user in the new member list ends in the team, with the team's department. */
  lemma MembersJoin(rows: seq<Row<User>>, cur: Option<Id>, next: Option<Id>, before: seq<Id>, after: seq<Id>, tid: Id, dept: Id, k: nat)
    requires k < |rows| && rows[k].id in after
    ensures Reconciled(rows, cur, next, before, after, tid, dept)[k].doc == rows[k].doc.(team := Some(tid), department := Some(dept))
  {
    ReconciledAt(rows, cur, next, before, after, tid, dept);
  }

  /** A user who is neither the old or new leader nor an old or new member keeps its whole record. */
  lemma BystandersUntouched(rows: seq<Row<User>>, cur: Option<Id>, next: Option<Id>, before: seq<Id>, after: seq<Id>, tid: Id, dept: Id, k: nat)
    requires k < |rows|
    requires rows[k].id !in before && rows[k].id !in after && cur != Some(rows[k].id) && next != Some(rows[k].id)
    ensures Reconciled(rows, cur, next, before, after, tid, dept)[k] == rows[k]
  {
    ReconciledAt(rows, cur, next, before, after, tid, dept);
  }

  /** Reconciling with a department that exists keeps every user's reference intact. */
  lemma ReconciledKeepsRefs(rows: seq<Row<User>>, departments: seq<Row<Department>>, cur: Option<Id>, next: Option<Id>,
                            before: seq<Id>, after: seq<Id>, tid: Id, dept: Id)
    requires UserRefsIntact(rows, departments) && dept in Ids(departments)
    ensures UserRefsIntact(Reconciled(rows, cur, next, before, after, tid, dept), departments)
  {
    ReconciledAt(rows, cur, next, before, after, tid, dept);
  }

  /** The team table after `updateTeam` writes `t` at position `i` keeps its invariants. */
  lemma RevisedKeepsTeams(teams: seq<Row<Team>>, departments: seq<Row<Department>>, i: nat, t: Team)
    requires DistinctIds(teams) && LeadersUnique(teams) && AllWellFormed(teams) && TeamRefsIntact(teams, departments)
    requires i < |teams| && t.department in Ids(departments) && t.name != ""
    requires t.teamLeader.Some? && t.teamLeader != teams[i].doc.teamLeader ==>
      forall j :: 0 <= j < |teams| && teams[j].id != teams[i].id ==> teams[j].doc.teamLeader != t.teamLeader
    ensures var after := teams[i := Row(teams[i].id, t)];
      LeadersUnique(after) && AllWellFormed(after) && TeamRefsIntact(after, departments)
  {
  }

  lemma DroppedStep(before: seq<Id>, after: seq<Id>, j: nat)
    requires j < |before|
    ensures Dropped(before[..j + 1], after) ==
      if before[j] in after then Dropped(before[..j], after) else Dropped(before[..j], after) + [before[j]]
  {
    assert before[..j + 1][..j] == before[..j];
  }

  lemma AssignedEachSnoc(rows: seq<Row<User>>, uids: seq<Id>, u: Id, team: Option<Id>, dept: Option<Id>)
    ensures AssignedEach(rows, uids + [u], team, dept) == Assigned(AssignedEach(rows, uids, team, dept), u, team, dept)
  {
    assert (uids + [u])[..|uids|] == uids;
  }

  /** Release each original member missing from the new list, in the original order. */
  method ReleaseDropped(users: Collection<User>, before: seq<Id>, after: seq<Id>)
    requires users.Valid()
    modifies users
    ensures users.Valid()
    ensures users.rows == AssignedEach(old(users.rows), Dropped(before, after), None, None)
  {
    var j := 0;
    while j < |before|
      invariant 0 <= j <= |before|
      invariant users.Valid()
      invariant users.rows == AssignedEach(old(users.rows), Dropped(before[..j], after), None, None)
    {
      DroppedStep(before, after, j);
      if before[j] !in after {
        AssignedEachSnoc(old(users.rows), Dropped(before[..j], after), before[j], None, None);
        AssignUser(users, before[j], None, None);
      }
      j := j + 1;
    }
    assert before[..j] == before;
  }

  /** Assigning a user the pair it already has changes nothing. */
  lemma AlreadyAssigned(rows: seq<Row<User>>, p: nat, team: Option<Id>, dept: Option<Id>)
    requires DistinctIds(rows) && p < |rows|
    requires rows[p].doc.team == team && rows[p].doc.department == dept
    ensures Assigned(rows, rows[p].id, team, dept) == rows
  {
    var r := Assigned(rows, rows[p].id, team, dept);
    forall q | 0 <= q < |rows|
      ensures r[q] == rows[q]
    {
      if rows[q].id == rows[p].id {
        assert q == p;
      }
    }
  }

  /**
   * Assign each new member, skipping a stored user that already has the
   * pair; a missing user is passed to the helper, which does nothing.
   */
  method JoinMembers(users: Collection<User>, after: seq<Id>, tid: Id, dept: Id)
    requires users.Valid()
    modifies users
    ensures users.Valid()
    ensures users.rows == AssignedEach(old(users.rows), after, Some(tid), Some(dept))
  {
    var j := 0;
    while j < |after|
      invariant 0 <= j <= |after|
      invariant users.Valid()
      invariant users.rows == AssignedEach(old(users.rows), after[..j], Some(tid), Some(dept))
    {
      var m := after[j];
      assert after[..j + 1] == after[..j] + [m];
      AssignedEachSnoc(old(users.rows), after[..j], m, Some(tid), Some(dept));
      var k := Find(users.rows, m);
      if k.None? || users.rows[k.value].doc.team != Some(tid) || users.rows[k.value].doc.department != Some(dept) {
        AssignUser(users, m, Some(tid), Some(dept));
      } else {
        AlreadyAssigned(users.rows, k.value, Some(tid), Some(dept));
      }
      j := j + 1;
    }
    assert after[..j] == after;
  }

  /** The user side of `updateTeam`: the four steps in the handler's order. */
  method ReconcileUsers(users: Collection<User>, cur: Option<Id>, next: Option<Id>, before: seq<Id>, after: seq<Id>,
                        tid: Id, dept: Id)
    requires users.Valid()
    modifies users
    ensures users.Valid()
    ensures users.rows == Reconciled(old(users.rows), cur, next, before, after, tid, dept)
  {
    if cur.Some? && cur != next {
      AssignUser(users, cur.value, None, None);
    }
    if next.Some? {
      AssignUser(users, next.value, Some(tid), Some(dept));
    }
    ReleaseDropped(users, before, after);
    JoinMembers(users, after, tid, dept);
  }

  /**
   * `updateTeam`: 404 for a missing team; the department, leader and schema
   * checks; then the team is written and the users reconciled in four steps.
   */
  method UpdateTeam(users: Collection<User>, teams: Collection<Team>, departments: Collection<Department>, tid: Id, b: TeamBody)
    returns (r: Response<Row<Team>>)
    requires users.Valid() && teams.Valid() && departments.Valid()
    requires LeadersUnique(teams.rows) && AllWellFormed(teams.rows)
    requires TeamRefsIntact(teams.rows, departments.rows) && UserRefsIntact(users.rows, departments.rows)
    modifies users, teams
    ensures users.Valid() && teams.Valid()
    ensures LeadersUnique(teams.rows) && AllWellFormed(teams.rows)
    ensures TeamRefsIntact(teams.rows, departments.rows) && UserRefsIntact(users.rows, departments.rows)
    ensures match Find(old(teams.rows), tid)
      case None => r == NotFound(TeamNotFound) && users.rows == old(users.rows) && teams.rows == old(teams.rows)
      case Some(i) =>
        var orig := old(teams.rows)[i].doc;
        match UpdateRefusal(old(users.rows), old(teams.rows), departments.rows, tid, orig, b)
        case Some(m) => r == BadRequest(m) && users.rows == old(users.rows) && teams.rows == old(teams.rows)
        case None =>
          var doc := Revised(orig, b);
          && r == Ok(Row(tid, doc))
          && teams.rows == old(teams.rows)[i := Row(tid, doc)]
          && users.rows == Reconciled(old(users.rows), orig.teamLeader, b.teamLeader, orig.members, doc.members, tid, doc.department)
  {
    var found := Find(teams.rows, tid);
    if found.None? {
      return NotFound(TeamNotFound);
    }
    var i := found.value;
    var orig := teams.rows[i].doc;
    var refusal := UpdateRefusal(users.rows, teams.rows, departments.rows, tid, orig, b);
    if refusal.Some? {
      return BadRequest(refusal.value);
    }
    var doc := Revised(orig, b);
    var dept := doc.department;
    RevisedKeepsTeams(teams.rows, departments.rows, i, doc);
    teams.Put(i, doc);
    r := Ok(Row(tid, doc));

    ReconciledKeepsRefs(users.rows, departments.rows, orig.teamLeader, b.teamLeader, orig.members, doc.members, tid, doc.department);
    ReconcileUsers(users, orig.teamLeader, b.teamLeader, orig.members, doc.members, tid, doc.department);
  }

  /** The team table without position `i` keeps its invariants. */
  lemma RemovedKeepsTeams(teams: seq<Row<Team>>, departments: seq<Row<Department>>, i: nat)
    requires LeadersUnique(teams) && AllWellFormed(teams) && TeamRefsIntact(teams, departments) && i < |teams|
    ensures var after := teams[..i] + teams[i + 1..];
      LeadersUnique(after) && AllWellFormed(after) && TeamRefsIntact(after, departments)
  {
    var after := teams[..i] + teams[i + 1..];
    assert forall k :: 0 <= k < |after| ==> after[k] == teams[if k < i then k else k + 1];
  }

  /** `deleteTeam`: 404 for a missing team; otherwise it is removed and its leader and members released. */
  method DeleteTeam(users: Collection<User>, teams: Collection<Team>, departments: Collection<Department>, tid: Id)
    returns (r: Response<string>)
    requires users.Valid() && teams.Valid()
    requires LeadersUnique(teams.rows) && AllWellFormed(teams.rows)
    requires TeamRefsIntact(teams.rows, departments.rows) && UserRefsIntact(users.rows, departments.rows)
    modifies users, teams
    ensures users.Valid() && teams.Valid()
    ensures LeadersUnique(teams.rows) && AllWellFormed(teams.rows)
    ensures TeamRefsIntact(teams.rows, departments.rows) && UserRefsIntact(users.rows, departments.rows)
    ensures match Find(old(teams.rows), tid)
      case None => r == NotFound(TeamNotFound) && users.rows == old(users.rows) && teams.rows == old(teams.rows)
      case Some(i) =>
        var t := old(teams.rows)[i].doc;
        && r == Ok(TeamDeleted)
        && teams.rows == old(teams.rows)[..i] + old(teams.rows)[i + 1..]
        && users.rows == AssignedEach(old(users.rows), Enlisted(t.teamLeader, t.members), None, None)
  {
    var found := Find(teams.rows, tid);
    if found.None? {
      return NotFound(TeamNotFound);
    }
    var i := found.value;
    var t := teams.rows[i].doc;
    RemovedKeepsTeams(teams.rows, departments.rows, i);
    teams.RemoveAt(i);
    AssignedEachKeepsRefs(users.rows, departments.rows, Enlisted(t.teamLeader, t.members), None, None);
    AssignEnlisted(users, t.teamLeader, t.members, None, None);
    r := Ok(TeamDeleted);
  }
}
