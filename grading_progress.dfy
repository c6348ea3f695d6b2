/** The grading-progress endpoints (`get_grading_progress` and
    `get_all_grading_progress`, held as source text in grading_progress_api.py).
    The endpoints first look a submission up in an in-memory map of live
    snapshots; that map is a parameter here, and no modelled code writes
    to it. Without an entry, the snapshot is derived from the status
    persisted for the submission. */
module GradingProgress {

  /** A progress snapshot: status, current step, percentage, details and
      the number of executions done. */
  datatype Snapshot = Snapshot(status: string, currentStep: string, progress: int, details: string,
                               executionCount: int)

  /** The answer of the single-submission endpoint: a snapshot, or HTTP 404. */
  datatype Response = Found(snapshot: Snapshot) | NotFound(detail: string)

  /** The answer of the aggregate endpoint. */
  datatype Overview = Overview(activeGradings: nat, details: map<int, Snapshot>)

  const NotFoundDetail := "Submission not found"

  const CompletedSnapshot := Snapshot("completed", "채점 완료", 100, "채점이 종료되었습니다.", 3)
  const FailedSnapshot := Snapshot("failed", "채점 실패", 0, "채점에 실패했습니다.", 0)
  const NotStartedSnapshot := Snapshot("not_started", "대기 중", 0, "채점이 시작되지 않았습니다.", 0)

  /** The snapshot derived from a persisted status: only "completed" and
      "failed" are recognised, everything else reads as not started. */
  function SnapshotOfStatus(status: string): (s: Snapshot)
    ensures s in {CompletedSnapshot, FailedSnapshot, NotStartedSnapshot}
    ensures s.progress == 100 <==> status == "completed"
    ensures s.progress == 0 <==> status != "completed"
    ensures s.executionCount == (if status == "completed" then 3 else 0)
    ensures s.status == "completed" <==> status == "completed"
    ensures s.status == "failed" <==> status == "failed"
  {
    if status == "completed" then CompletedSnapshot
    else if status == "failed" then FailedSnapshot
    else NotStartedSnapshot
  }

  /** `get_grading_progress(id)`: the live snapshot when there is one,
      otherwise the snapshot of the persisted status, or 404 when the
      submission does not exist. */
  function GetGradingProgress(progress: map<int, Snapshot>, persisted: map<int, string>, id: int): (r: Response)
    ensures id in progress ==> r == Found(progress[id])
    ensures id !in progress ==> (r.NotFound? <==> id !in persisted)
    ensures id !in progress && id in persisted ==> r == Found(SnapshotOfStatus(persisted[id]))
    ensures r.NotFound? ==> r.detail == NotFoundDetail
  {
    if id !in progress then
      if id !in persisted then NotFound(NotFoundDetail)
      else Found(SnapshotOfStatus(persisted[id]))
    else Found(progress[id])
  }

  /** `get_all_grading_progress`: every live snapshot and their number. */
  function GetAllGradingProgress(progress: map<int, Snapshot>): (o: Overview)
    ensures o.activeGradings == |progress.Keys|
    ensures o.details == progress
  {
    Overview(|progress|, progress)
  }

  /** Without a live snapshot, a submission that is pending, executing or
      waiting for manual review all read as "not_started" with no
      progress; so does any status the store does not know. */
  lemma UnfinishedStatusesReadAsNotStarted(persisted: map<int, string>, id: int)
    requires id in persisted && persisted[id] != "completed" && persisted[id] != "failed"
    ensures GetGradingProgress(map[], persisted, id) == Found(NotStartedSnapshot)
  {
  }

  /** Without a live snapshot, 100 percent is reported exactly for the
      submissions persisted as completed. */
  lemma FullProgressMeansCompleted(persisted: map<int, string>, id: int)
    requires id in persisted
    ensures GetGradingProgress(map[], persisted, id).Found?
    ensures GetGradingProgress(map[], persisted, id).snapshot.progress == 100 <==> persisted[id] == "completed"
  {
  }

  /** A live snapshot always wins over the persisted status. */
  lemma LiveSnapshotWins(progress: map<int, Snapshot>, persisted: map<int, string>, id: int)
    requires id in progress
    ensures GetGradingProgress(progress, persisted, id) == Found(progress[id])
    ensures forall other: map<int, string> :: GetGradingProgress(progress, other, id) == GetGradingProgress(progress, persisted, id)
  {
  }
}
