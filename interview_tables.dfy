/** The interview tables the backend routes read and write: interview
    sessions and interview turns, and the queries the routes run over them.
    Rows are kept in insertion order, which stands for `created_at` order. */
module InterviewTables {
  import opened Wrappers

  /** A row of `interview_turns`. `parent` is the `parent_turn_id` the
      answer route reads and writes; the turn model file declares no such
      column. */
  datatype Turn = Turn(
    id: nat,
    session: int,
    question: string,
    answer: Option<string>,
    isFollowUp: bool,
    parent: Option<nat>)

  /** A row of `interview_sessions`. */
  datatype SessionRow = SessionRow(id: int, userId: int, resumeId: int, interviewType: string)

  /** A main (not follow-up) turn of session `s`. */
  predicate IsMainOf(t: Turn, s: int) {
    t.session == s && !t.isFollowUp
  }

  /** The number of main turns of session `s`: the `is_follow_up == False`
      count both routes run. */
  function MainCount(turns: seq<Turn>, s: int): nat
    decreases |turns|
  {
    if turns == [] then 0
    else MainCount(turns[..|turns| - 1], s) + (if IsMainOf(turns[|turns| - 1], s) then 1 else 0)
  }

  /** Appending a turn adds one to the count of its session exactly when it
      is a main turn. */
  lemma MainCountAppend(turns: seq<Turn>, t: Turn, s: int)
    ensures MainCount(turns + [t], s) == MainCount(turns, s) + (if IsMainOf(t, s) then 1 else 0)
  {
    assert (turns + [t])[..|turns|] == turns;
  }

  /** Rewriting a turn's answer changes no count. */
  lemma {:induction false} MainCountSetAnswer(turns: seq<Turn>, k: nat, a: Option<string>, s: int)
    requires k < |turns|
    ensures MainCount(turns[k := turns[k].(answer := a)], s) == MainCount(turns, s)
    decreases |turns|
  {
    var u := turns[k := turns[k].(answer := a)];
    if k == |turns| - 1 {
      assert u[..|u| - 1] == turns[..|turns| - 1];
    } else {
      var p := turns[..|turns| - 1];
      assert u[..|u| - 1] == p[k := p[k].(answer := a)];
      MainCountSetAnswer(p, k, a, s);
    }
  }

  /** The count is the number of positions holding a main turn of `s`, so a
      session without main turns counts zero and the count bounds the
      table's length. */
  lemma {:induction false} MainCountBounds(turns: seq<Turn>, s: int)
    ensures MainCount(turns, s) <= |turns|
    ensures MainCount(turns, s) == 0 <==> forall j :: 0 <= j < |turns| ==> !IsMainOf(turns[j], s)
    decreases |turns|
  {
    if turns != [] {
      var p := turns[..|turns| - 1];
      MainCountBounds(p, s);
      assert forall j :: 0 <= j < |p| ==> p[j] == turns[j];
    }
  }

  /** The position of the latest main turn of session `s`: the first row of
      the main turns ordered by `created_at` descending. */
  function LastMain(turns: seq<Turn>, s: int): (r: Option<nat>)
    ensures r.Some? ==> r.value < |turns| && IsMainOf(turns[r.value], s)
    decreases |turns|
  {
    if turns == [] then None
    else if IsMainOf(turns[|turns| - 1], s) then Some(|turns| - 1)
    else LastMain(turns[..|turns| - 1], s)
  }

  /** `LastMain` finds the latest main turn: no main turn of the session
      comes after it, and it finds none only when the session has none. */
  lemma {:induction false} LastMainIsLatest(turns: seq<Turn>, s: int)
    ensures LastMain(turns, s).Some? ==>
      forall j :: LastMain(turns, s).value < j < |turns| ==> !IsMainOf(turns[j], s)
    ensures LastMain(turns, s).None? <==> forall j :: 0 <= j < |turns| ==> !IsMainOf(turns[j], s)
    decreases |turns|
  {
    if turns != [] && !IsMainOf(turns[|turns| - 1], s) {
      var p := turns[..|turns| - 1];
      LastMainIsLatest(p, s);
      assert forall j :: 0 <= j < |p| ==> p[j] == turns[j];
    }
  }

  /** A follow-up of session `s` whose parent is the turn `parentId`. */
  predicate HasFollowUp(turns: seq<Turn>, s: int, parentId: nat) {
    exists i | 0 <= i < |turns| :: turns[i].session == s && turns[i].isFollowUp && turns[i].parent == Some(parentId)
  }

  /** The session row with id `id`, if any. */
  function FindSession(sessions: seq<SessionRow>, id: int): (r: Option<SessionRow>)
    ensures r.Some? ==> r.value in sessions && r.value.id == id
    ensures r.None? ==> forall row :: row in sessions ==> row.id != id
  {
    if sessions == [] then None
    else if sessions[0].id == id then Some(sessions[0])
    else FindSession(sessions[1..], id)
  }

  /** The session row with id `id` owned by user `userId`, if any. */
  function FindOwnedSession(sessions: seq<SessionRow>, id: int, userId: int): (r: Option<SessionRow>)
    ensures r.Some? ==> r.value in sessions && r.value.id == id && r.value.userId == userId
    ensures r.None? ==> forall row :: row in sessions ==> row.id != id || row.userId != userId
  {
    if sessions == [] then None
    else if sessions[0].id == id && sessions[0].userId == userId then Some(sessions[0])
    else FindOwnedSession(sessions[1..], id, userId)
  }
}
