/** The super-admin panel listing teacher accounts
    (src/components/TeacherManagement.tsx): change a teacher's access level or
    delete the account, never for the signed-in teacher's own row. */
module TeacherManagement {
  import opened Types
  import opened Seqs

  /** The local list after setting `id`'s access level. */
  function WithAccessLevel(teachers: seq<Teacher>, id: string, level: AccessLevel): seq<Teacher>
  {
    Map(teachers, (t: Teacher) => if t.id == id then t.(access_level := level) else t)
  }

  /** The local list after deleting `id`. */
  function WithoutTeacher(teachers: seq<Teacher>, id: string): seq<Teacher>
  {
    Filter(teachers, (t: Teacher) => t.id != id)
  }

  /** `teacher.id !== currentTeacher?.id`: the access-level select and the
      delete button are drawn on every row but the signed-in teacher's, which
      shows a "Current User" badge instead. */
  predicate ShowsRowActions(row: Teacher, currentId: Option<string>)
  {
    currentId != Some(row.id)
  }

  /** `teacher.id === currentTeacher?.id`: the row gets the "Current User" badge. */
  predicate ShowsCurrentUserBadge(row: Teacher, currentId: Option<string>)
  {
    currentId == Some(row.id)
  }

  /** With nobody signed in every row offers the actions; with a signed-in
      teacher exactly the rows with other ids do. Every row shows exactly one
      of the actions and the badge. */
  lemma RowActionsSkipOnlyCurrent(row: Teacher, currentId: Option<string>)
    ensures currentId.None? ==> ShowsRowActions(row, currentId) && !ShowsCurrentUserBadge(row, currentId)
    ensures currentId.Some? ==> (ShowsRowActions(row, currentId) <==> row.id != currentId.value)
    ensures ShowsCurrentUserBadge(row, currentId) <==> !ShowsRowActions(row, currentId)
  {
  }

  /** Only the access_level of rows with that id changes; every other field of
      every row, the order and the length stay. */
  lemma AccessLevelOnlyTarget(teachers: seq<Teacher>, id: string, level: AccessLevel)
    ensures var r := WithAccessLevel(teachers, id, level);
      |r| == |teachers| &&
      forall i :: 0 <= i < |teachers| ==>
        r[i] == teachers[i].(access_level := r[i].access_level) &&
        r[i].access_level == (if teachers[i].id == id then level else teachers[i].access_level)
  {
  }

  /** Deleting removes exactly the rows with that id and keeps the rest in order. */
  lemma WithoutTeacherRemovesOnlyTarget(teachers: seq<Teacher>, id: string)
    ensures forall t :: t in WithoutTeacher(teachers, id) ==> t in teachers && t.id != id
    ensures forall i :: 0 <= i < |teachers| && teachers[i].id != id ==> teachers[i] in WithoutTeacher(teachers, id)
    ensures IsSubsequence(WithoutTeacher(teachers, id), teachers)
  {
    FilterIsSubsequence(teachers, (t: Teacher) => t.id != id);
  }

  /** When the list holds no other row with the deleted id, it loses exactly one row. */
  lemma {:induction false} WithoutUniqueTeacher(teachers: seq<Teacher>, id: string, i: nat)
    requires i < |teachers| && teachers[i].id == id
    requires forall j :: 0 <= j < |teachers| && j != i ==> teachers[j].id != id
    ensures |WithoutTeacher(teachers, id)| == |teachers| - 1
  {
    var rest := teachers[1..];
    if i == 0 {
      assert forall t :: t in rest ==> t.id != id by {
        forall t | t in rest ensures t.id != id {
          var j :| 0 <= j < |rest| && rest[j] == t;
          assert teachers[j + 1] == t;
        }
      }
      FilterKeepsAll(rest, (t: Teacher) => t.id != id);
    } else {
      assert forall j :: 0 <= j < |rest| && j != i - 1 ==> rest[j] == teachers[j + 1];
      WithoutUniqueTeacher(rest, id, i - 1);
    }
  }

  datatype DeleteOutcome = OwnAccountRefused | Declined | StoreFailed | Deleted

  class Panel {
    var teachers: seq<Teacher>
    /** Set until the first fetch settles. */
    var loading: bool
    /** The signed-in teacher's id, if any. */
    const currentId: Option<string>

    constructor (currentId: Option<string>)
      ensures teachers == [] && this.currentId == currentId && loading
    {
      teachers := [];
      loading := true;
      this.currentId := currentId;
    }

    /** `fetchTeachers`: replaces the list on success, a null result reading as empty. */
    method FetchTeachers(data: Option<seq<Teacher>>, storeFails: bool)
      modifies this
      ensures teachers == if storeFails then old(teachers) else if data.Some? then data.value else []
      ensures !loading
    {
      if !storeFails {
        teachers := if data.Some? then data.value else [];
      }
      loading := false;
    }

    /** `updateAccessLevel`: one update for that id, then the list follows;
        on a store error the list is unchanged. The method itself has no
        self-check; only the missing select on the own row prevents it. */
    method UpdateAccessLevel(teacherId: string, level: AccessLevel, storeFails: bool)
      modifies this
      ensures teachers == if storeFails then old(teachers) else WithAccessLevel(old(teachers), teacherId, level)
      ensures loading == old(loading)
    {
      if !storeFails {
        teachers := WithAccessLevel(teachers, teacherId, level);
      }
    }

    /** `deleteTeacher`: refuses the signed-in teacher's own id before asking
        for confirmation or calling the store. */
    method DeleteTeacher(teacherId: string, confirmed: bool, storeFails: bool)
      returns (deleteSent: bool, outcome: DeleteOutcome)
      modifies this
      ensures deleteSent <==> currentId != Some(teacherId) && confirmed
      ensures outcome == (if currentId == Some(teacherId) then OwnAccountRefused
                          else if !confirmed then Declined
                          else if storeFails then StoreFailed else Deleted)
      ensures teachers == if outcome == Deleted then WithoutTeacher(old(teachers), teacherId) else old(teachers)
      ensures loading == old(loading)
    {
      if Some(teacherId) == currentId {
        return false, OwnAccountRefused;
      }
      if !confirmed {
        return false, Declined;
      }
      deleteSent := true;
      if storeFails {
        outcome := StoreFailed;
      } else {
        teachers := WithoutTeacher(teachers, teacherId);
        outcome := Deleted;
      }
    }
  }
}
