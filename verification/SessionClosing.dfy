/** How a session ends: whose answer it takes, and when it counts as failed. */
module SessionClosing {
  import opened Tables
  import opened Transactions

  predicate CompletedRoot(t: Task, s: SessionId) {
    t.session == s && t.status.Completed? && t.parent.None?
  }

  /** The query for the answer finds a completed root task that was updated no earlier than any other. */
  lemma {:induction false} LatestRootIsLatest(tasks: seq<Task>, s: SessionId)
    ensures match LatestRoot(tasks, s)
            case None => forall i :: 0 <= i < |tasks| ==> !CompletedRoot(tasks[i], s)
            case Some(t) =>
              && t in tasks && CompletedRoot(t, s)
              && forall i :: 0 <= i < |tasks| && CompletedRoot(tasks[i], s) ==> tasks[i].updatedAt <= t.updatedAt
  {
    if tasks != [] {
      LatestRootIsLatest(tasks[..|tasks| - 1], s);
    }
  }

  /** A root task of the session gave `text` as its answer, and none completed after it. */
  ghost predicate Answers(tasks: seq<Task>, s: SessionId, text: string) {
    exists i :: 0 <= i < |tasks| && CompletedRoot(tasks[i], s) && tasks[i].output == Some(Answer(text))
                && forall j :: 0 <= j < |tasks| && CompletedRoot(tasks[j], s) ==> tasks[j].updatedAt <= tasks[i].updatedAt
  }

  /** When an open session has no live task left it is closed: as failed only if a task failed and no
      root completed last with an answer; otherwise as completed, with that answer if there is one. A
      session with a live task, or one already closed, is left alone. */
  lemma SessionOutcome(db: Db, s: SessionId)
    requires s < |db.sessions|
    ensures var row, next := db.sessions[s], CloseSession(db, s);
            && |next.sessions| == |db.sessions| && next == db.(sessions := next.sessions)
            && (forall r :: 0 <= r < |db.sessions| && r != s ==> next.sessions[r] == db.sessions[r])
            && (HasLive(db.tasks, s) || !row.status.Open? ==> next == db)
            && (!HasLive(db.tasks, s) && row.status.Open? ==>
                  var closed := next.sessions[s];
                  && (closed.status.Broken? || closed.status.Done?)
                  && (closed.status.Broken? ==> HasFailed(db.tasks, s) && closed == row.(status := Broken))
                  && (closed.status.Done? && HasFailed(db.tasks, s) ==> closed.finalAnswer.Some? && Answers(db.tasks, s, closed.finalAnswer.value))
                  && (closed.status.Done? ==> closed.finalAnswer == row.finalAnswer
                                              || (closed.finalAnswer.Some? && Answers(db.tasks, s, closed.finalAnswer.value)))
                  && (forall text :: Answers(db.tasks, s, text) && UniqueLatest(db.tasks, s) ==> closed.status.Done? && closed.finalAnswer == Some(text)))
  {
    LatestRootIsLatest(db.tasks, s);
    hide LatestRoot;
    var latest := LatestRoot(db.tasks, s);
    if latest.Some? {
      var i :| 0 <= i < |db.tasks| && db.tasks[i] == latest.value;
    }
  }

  /** No two root tasks of the session completed at the same time. */
  ghost predicate UniqueLatest(tasks: seq<Task>, s: SessionId) {
    forall i, j :: 0 <= i < j < |tasks| && CompletedRoot(tasks[i], s) && CompletedRoot(tasks[j], s) ==>
      tasks[i].updatedAt != tasks[j].updatedAt
  }
}
