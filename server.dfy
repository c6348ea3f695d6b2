/** The grading orchestration of main.py: the submission store, the
    background job that grades one submission (`grade_single_submission`)
    and the endpoint that selects the pending submissions of a competition
    (`start_grading`).

    The SQLite tables become maps from id to record held by a `Store`
    object; the rows the grading query joins are looked up in them. */
module Server {
  import opened Wrappers
  import opened PyText
  import opened GradingEngine
  import GradingProgress

  /** The statuses the code writes. */
  datatype Status = Pending | Executing | Completed | ManualReview | Failed

  /** The text stored in the status column. */
  function StatusName(s: Status): (name: string)
    ensures name in {"pending", "executing", "completed", "manual_review", "failed"}
  {
    match s
    case Pending => "pending"
    case Executing => "executing"
    case Completed => "completed"
    case ManualReview => "manual_review"
    case Failed => "failed"
  }

  /** Distinct statuses are stored as distinct texts, so the status read
      back from the column is the one written. */
  lemma StatusNamesDistinct(s: Status, t: Status)
    ensures StatusName(s) == StatusName(t) <==> s == t
  {
  }

  datatype Competition = Competition(model: string)

  datatype Assignment = Assignment(name: string, inputFileContent: Option<string>, goldenOutput: Option<string>,
                                   requirements: Option<string>)

  /** A submission row. The grading result is kept as the parsed object
      rather than its JSON text. */
  datatype Submission = Submission(
    competitionId: int,
    participantId: int,
    assignmentId: int,
    promptText: string,
    status: Status,
    output1: Option<string>,
    output2: Option<string>,
    output3: Option<string>,
    gradingResult: Option<JsonObject>,
    errorMessage: Option<string>,
    retryCount: int,
    gradedAt: Option<string>)

  /** What Python raises when the success branch indexes fewer than three
      outputs (the engine never returns fewer). */
  const IndexErrorMessage := "list index out of range"

  /** The record after the engine answered `g`: a failure is flagged for
      manual review with its error and one more retry; a success stores the
      three outputs in order, the grading result and the grading time. */
  function Finish(sub: Submission, g: Grading, now: string): (s: Submission)
    ensures (s.competitionId, s.participantId, s.assignmentId, s.promptText)
         == (sub.competitionId, sub.participantId, sub.assignmentId, sub.promptText)
    ensures s.status == Completed <==> g.success && |g.outputs| >= 3
    ensures !g.success ==>
      && s.status == ManualReview && s.errorMessage == g.error && s.retryCount == sub.retryCount + 1
      && (s.output1, s.output2, s.output3) == (sub.output1, sub.output2, sub.output3)
      && s.gradingResult == sub.gradingResult && s.gradedAt == sub.gradedAt
    ensures s.status == Completed ==>
      && (s.output1, s.output2, s.output3) == (Some(g.outputs[0]), Some(g.outputs[1]), Some(g.outputs[2]))
      && s.gradingResult == Some(g.result) && s.gradedAt == Some(now)
      && s.errorMessage == sub.errorMessage && s.retryCount == sub.retryCount
  {
    if !g.success then
      sub.(status := ManualReview, errorMessage := g.error, retryCount := sub.retryCount + 1)
    else if |g.outputs| < 3 then
      sub.(status := Failed, errorMessage := Some(IndexErrorMessage))
    else
      sub.(output1 := Some(g.outputs[0]), output2 := Some(g.outputs[1]), output3 := Some(g.outputs[2]),
           gradingResult := Some(g.result), status := Completed, gradedAt := Some(now))
  }

  /** A completed record holds three outputs, a grade that passed
      validation and the time it was graded. */
  ghost predicate GradedWhenCompleted(s: Submission) {
    s.status == Completed ==>
      && s.output1.Some? && s.output2.Some? && s.output3.Some?
      && s.gradingResult.Some? && PassesValidation(s.gradingResult.value)
      && s.gradedAt.Some?
  }

  ghost predicate AllGradedWhenCompleted(subs: map<int, Submission>) {
    forall id :: id in subs ==> GradedWhenCompleted(subs[id])
  }

  /** Finishing with the engine's answer keeps a record's completed state
      honest: only a grade that passed validation can make it completed. */
  lemma FinishGradedWhenCompleted(sub: Submission, g: Grading, now: string)
    requires g.success ==> PassesValidation(g.result)
    ensures GradedWhenCompleted(Finish(sub, g, now))
  {
  }

  /** When the engine returns, finishing either completes the record with
      a grade that passed validation or flags it for manual review,
      whatever the service answers. */
  lemma GradeThenFinish(sub: Submission, engine: Engine, a: Assignment, parse: string -> Parsed,
                        env: Env, now: string)
    ensures var (o, _) := Grade(engine, sub.promptText, a.inputFileContent, a.goldenOutput, a.requirements,
                                a.name, parse, env);
            o.Returned? ==>
              var s := Finish(sub, o.grading, now);
              && GradedWhenCompleted(s)
              && s.status in {Completed, ManualReview}
  {
    var (x, envX) := ExecuteThree(engine, sub.promptText, a.inputFileContent, DefaultMaxRetries, env);
    if x.ExecOk? {
      ExecuteThreeShape(engine, sub.promptText, a.inputFileContent, DefaultMaxRetries, env);
    }
  }

  /** The snapshot the progress endpoint derives from a finished record:
      a completed one reads as completed, while one flagged for manual
      review reads as not started. */
  lemma FinishedRecordProgress(sub: Submission, g: Grading, now: string)
    ensures var s := Finish(sub, g, now);
      GradingProgress.SnapshotOfStatus(StatusName(s.status))
        == (if s.status == Completed then GradingProgress.CompletedSnapshot
            else if s.status == Failed then GradingProgress.FailedSnapshot
            else GradingProgress.NotStartedSnapshot)
    ensures !g.success ==>
      GradingProgress.SnapshotOfStatus(StatusName(Finish(sub, g, now).status)) == GradingProgress.NotStartedSnapshot
  {
  }

  /** The record grading leaves behind and the service's state after it:
      marked failed with the set-up error when the client could not be
      created; marked failed with the TypeError when a run came back
      without text (the exception escapes the engine); otherwise finished
      with the engine's answer. A completed record holds a grade that
      passed validation. */
  function GradeRecord(sub: Submission, c: Competition, a: Assignment, parse: string -> Parsed, env: Env,
                       now: string, clientError: Option<string>): (r: (Submission, Env))
    ensures (r.0.competitionId, r.0.participantId, r.0.assignmentId, r.0.promptText)
         == (sub.competitionId, sub.participantId, sub.assignmentId, sub.promptText)
    ensures r.0.status == Failed <==>
              clientError.Some? || RunWithoutText(Engine(c.model), sub.promptText, a.inputFileContent, env)
    ensures clientError.Some? ==> r.0.errorMessage == clientError && r.1 == env
    ensures clientError.None? && RunWithoutText(Engine(c.model), sub.promptText, a.inputFileContent, env) ==>
              r.0.errorMessage == Some(NoneSubscriptMessage)
    ensures r.0.status != Failed ==> r.0.status in {Completed, ManualReview}
    ensures GradedWhenCompleted(r.0)
  {
    var executing := sub.(status := Executing);
    if clientError.Some? then
      (executing.(status := Failed, errorMessage := clientError), env)
    else
      var (o, envG) := Grade(Engine(c.model), sub.promptText, a.inputFileContent, a.goldenOutput, a.requirements,
                             a.name, parse, env);
      match o
      case GradeRaised(m) => (executing.(status := Failed, errorMessage := Some(m)), envG)
      case Returned(g) =>
        GradeThenFinish(executing, Engine(c.model), a, parse, env, now);
        (Finish(executing, g, now), envG)
  }

  /** The work of the grading job on a record: the record it writes last
      and the service's state after it. */
  method GradeJob(sub: Submission, c: Competition, a: Assignment, parse: string -> Parsed, env: Env,
                  now: string, clientError: Option<string>)
    returns (rec: Submission, env': Env)
    ensures (rec, env') == GradeRecord(sub, c, a, parse, env, now, clientError)
  {
    var executing := sub.(status := Executing);
    if clientError.Some? {
      return executing.(status := Failed, errorMessage := clientError), env;
    }
    var o;
    o, env' := GradeSubmission(Engine(c.model), executing.promptText, a.inputFileContent, a.goldenOutput,
                               a.requirements, a.name, parse, env);
    match o
    case GradeRaised(m) =>
      rec := executing.(status := Failed, errorMessage := Some(m));
    case Returned(g) =>
      rec := Finish(executing, g, now);
  }

  /** A non-empty set has an element. */
  lemma SomeElement(s: set<int>)
    requires s != {}
    ensures exists x :: x in s
  {
    if forall x :: x !in s {
      assert false;
    }
  }

  datatype StartResult = NoPending(message: string) | Started(message: string, ids: seq<int>)

  const NoPendingMessage := "No pending submissions to grade"

  class Store {
    var competitions: map<int, Competition>
    var assignments: map<int, Assignment>
    var submissions: map<int, Submission>
    /** Every status written, in order, with the submission it was written to. */
    ghost var statusLog: seq<(int, Status)>

    constructor (competitions: map<int, Competition>, assignments: map<int, Assignment>,
                 submissions: map<int, Submission>)
      ensures this.competitions == competitions && this.assignments == assignments
      ensures this.submissions == submissions && statusLog == []
    {
      this.competitions := competitions;
      this.assignments := assignments;
      this.submissions := submissions;
      statusLog := [];
    }

    ghost predicate Valid()
      reads this
    {
      AllGradedWhenCompleted(submissions)
    }

    /** The grading query finds the submission joined with its assignment
      and its competition. */
    predicate Joined(id: int)
      reads this
    {
      id in submissions && submissions[id].assignmentId in assignments && submissions[id].competitionId in competitions
    }

    /** The statuses as the progress endpoint reads them. */
    function PersistedStatuses(): (m: map<int, string>)
      reads this
      ensures m.Keys == submissions.Keys
    {
      map id | id in submissions :: StatusName(submissions[id].status)
    }

    /** `grade_single_submission(id)`. `clientError` is the exception
        raised while the engine is set up, if any; `now` is the clock. The
        record passes through "executing" before its final status. */
    method GradeSingleSubmission(id: int, env: Env, parse: string -> Parsed, now: string, clientError: Option<string>)
      returns (env': Env)
      modifies this
      ensures competitions == old(competitions) && assignments == old(assignments)
      ensures !old(Joined(id)) ==> submissions == old(submissions) && statusLog == old(statusLog) && env' == env
      ensures old(Joined(id)) ==>
        var sub := old(submissions)[id];
        var rec := GradeRecord(sub, competitions[sub.competitionId], assignments[sub.assignmentId], parse, env,
                               now, clientError);
        && submissions == old(submissions)[id := rec.0] && env' == rec.1
        && statusLog == old(statusLog) + [(id, Executing), (id, rec.0.status)]
      ensures old(Valid()) ==> Valid()
    {
      if !Joined(id) {
        return env;
      }
      var sub := submissions[id];
      var executing := sub.(status := Executing);
      submissions := submissions[id := executing];
      statusLog := statusLog + [(id, Executing)];
      var rec;
      rec, env' := GradeJob(sub, competitions[sub.competitionId], assignments[sub.assignmentId],
                                  parse, env, now, clientError);
      assert GradedWhenCompleted(rec);
      submissions := submissions[id := rec];
      statusLog := statusLog + [(id, rec.status)];
    }

    /** The submissions of a competition that wait to be graded. */
    function PendingIds(competitionId: int): set<int>
      reads this
    {
      set id | id in submissions && submissions[id].competitionId == competitionId
                                 && submissions[id].status == Pending
    }

    /** `start_grading`: one grading job per pending submission of the
        competition, each exactly once, and none when nothing is pending. */
    method StartGrading(competitionId: int) returns (r: StartResult)
      ensures r.NoPending? <==> PendingIds(competitionId) == {}
      ensures r.NoPending? ==> r.message == NoPendingMessage
      ensures r.Started? ==>
        && (forall i :: 0 <= i < |r.ids| ==> r.ids[i] in PendingIds(competitionId))
        && (forall id :: id in PendingIds(competitionId) ==> id in r.ids)
        && (forall i, j :: 0 <= i < j < |r.ids| ==> r.ids[i] != r.ids[j])
        && r.message == "Grading started for " + NatToString(|r.ids|) + " submissions"
    {
      var remaining := submissions.Keys;
      var ids: seq<int> := [];
      while remaining != {}
        invariant remaining <= submissions.Keys
        invariant forall i :: 0 <= i < |ids| ==> ids[i] in PendingIds(competitionId) && ids[i] !in remaining
        invariant forall i, j :: 0 <= i < j < |ids| ==> ids[i] != ids[j]
        invariant forall id :: id in PendingIds(competitionId) ==> id in remaining || id in ids
        decreases remaining
      {
        SomeElement(remaining);
        var sid :| sid in remaining;
        if submissions[sid].competitionId == competitionId && submissions[sid].status == Pending {
          ids := ids + [sid];
        }
        remaining := remaining - {sid};
      }
      if ids == [] {
        assert forall id :: id !in PendingIds(competitionId);
        return NoPending(NoPendingMessage);
      }
      assert ids[0] in PendingIds(competitionId);
      r := Started("Grading started for " + NatToString(|ids|) + " submissions", ids);
    }
  }
}
