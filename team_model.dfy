/**
 * The team record (models/Team.js): a required name and department, an
 * optional leader under a unique index, and a list of member references
 * with no distinctness or cross-team constraint.
 */
module TeamModel {
  import opened Wrappers
  import opened Table

  datatype Team = Team(name: string, department: Id, teamLeader: Option<Id>, members: seq<Id>)

  /** The schema's validators: the name is required, so not empty; the department is always present here. */
  predicate WellFormed(t: Team) {
    t.name != ""
  }

  /** The unique index on `teamLeader`: no user leads two teams; any number of teams may have no leader. */
  ghost predicate LeadersUnique(rows: seq<Row<Team>>) {
    forall i, j :: 0 <= i < |rows| && 0 <= j < |rows| && i != j && rows[i].doc.teamLeader.Some? ==>
      rows[i].doc.teamLeader != rows[j].doc.teamLeader
  }

  /** Every stored team passes the schema's validators. */
  ghost predicate AllWellFormed(rows: seq<Row<Team>>) {
    forall i :: 0 <= i < |rows| ==> WellFormed(rows[i].doc)
  }

  /**
   * `Team.findOne({ teamLeader: uid, _id: { $ne: except } })`: the first
   * team, other than the one identified by `except`, that `uid` leads.
   */
  function LedElsewhere(rows: seq<Row<Team>>, uid: Id, except: Option<Id>): (r: Option<nat>)
    ensures r.Some? ==> r.value < |rows| && rows[r.value].doc.teamLeader == Some(uid) && Some(rows[r.value].id) != except
    ensures r.None? <==> forall j :: 0 <= j < |rows| && Some(rows[j].id) != except ==> rows[j].doc.teamLeader != Some(uid)
  {
    if rows == [] then None
    else if rows[0].doc.teamLeader == Some(uid) && Some(rows[0].id) != except then Some(0)
    else match LedElsewhere(rows[1..], uid, except)
      case None => None
      case Some(k) => Some(k + 1)
  }

  /** Under the unique index, the leader of a stored team leads no other team. */
  lemma LeaderLeadsOnlyOne(rows: seq<Row<Team>>, i: nat)
    requires LeadersUnique(rows) && DistinctIds(rows)
    requires i < |rows| && rows[i].doc.teamLeader.Some?
    ensures LedElsewhere(rows, rows[i].doc.teamLeader.value, Some(rows[i].id)).None?
  {
  }

  /** What the `teamLeader` field of a stored team document holds. */
  datatype LeaderField = Missing | Null | LedBy(uid: Id)

  /**
   * The field as `updateTeam` writes it: `teamLeader: newLeaderId`, which is
   * null when the body names no leader (`createTeam` leaves it missing instead).
   */
  function WrittenByUpdate(leader: Option<Id>): (f: LeaderField)
    ensures f != Missing
    ensures f.LedBy? <==> leader.Some?
  {
    if leader.Some? then LedBy(leader.value) else Null
  }

  /**
   * The unique sparse index as the database enforces it: documents without
   * the field are skipped, but null is indexed like any other value.
   */
  predicate SparseIndexAdmits(fields: seq<LeaderField>) {
    forall i, j :: 0 <= i < j < |fields| && fields[i] != Missing ==> fields[i] != fields[j]
  }

  /**
   * Two leaderless teams satisfy the intended invariant, yet once both have
   * been through `updateTeam` the index holds two nulls: the second update
   * is refused with the duplicate-leader answer.
   */
  lemma LeaderlessUpdatesClash()
    ensures var rows := [Row(0, Team("A", 0, None, [])), Row(1, Team("B", 0, None, []))];
      && LeadersUnique(rows)
      && !SparseIndexAdmits([WrittenByUpdate(rows[0].doc.teamLeader), WrittenByUpdate(rows[1].doc.teamLeader)])
  {
    var fields := [WrittenByUpdate(None), WrittenByUpdate(None)];
    assert fields[0] == Null == fields[1];
  }

  /** With the index over actual leaders, any team may drop its leader. */
  lemma DroppingLeaderKeepsUnique(rows: seq<Row<Team>>, i: nat)
    requires LeadersUnique(rows) && i < |rows|
    ensures LeadersUnique(rows[i := Row(rows[i].id, rows[i].doc.(teamLeader := None))])
  {
  }
}
