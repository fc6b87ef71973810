/** The course's assignment list: the per-user progress derived from the
    fetched statuses, and the filters of the list. */
module CourseAssignments {
  import opened Wrappers

  /** `statuses[id].comparisons` as the server reports it. */
  datatype AssignmentStatus = AssignmentStatus(comparisonsLeft: int, selfEvaluationCompleted: bool)

  /** The fields the status loop derives: `comparisons_left`, `self_evaluation_needed`,
      `steps_left` and `answers_available`. */
  datatype Progress = Progress(comparisonsLeft: int, selfEvaluationNeeded: bool,
                               stepsLeft: int, answersAvailable: bool)

  /** An assignment of the list; `progress` is None until the statuses are in. */
  datatype ListedAssignment = ListedAssignment(
    id: string,
    answerPeriod: bool, comparePeriod: bool, available: bool,
    afterComparing: bool, enableSelfEvaluation: bool,
    compareEnd: Option<int>,
    progress: Option<Progress>)

  /** One step of the status loop. With a compare period, answers open when comparing is
      over; without one, they open once no step is left (comparison counts the server
      reports never go below zero). */
  function DeriveProgress(a: ListedAssignment, s: AssignmentStatus): (p: Progress)
    ensures p.comparisonsLeft == s.comparisonsLeft
    ensures p.selfEvaluationNeeded <==> a.enableSelfEvaluation && !s.selfEvaluationCompleted
    ensures s.comparisonsLeft >= 0 ==> p.stepsLeft >= 0
    ensures s.comparisonsLeft >= 0 ==>
              (p.stepsLeft == 0 <==> s.comparisonsLeft == 0 && (a.enableSelfEvaluation ==> s.selfEvaluationCompleted))
    ensures a.compareEnd.Some? ==> p.answersAvailable == a.afterComparing
    ensures s.comparisonsLeft >= 0 && a.compareEnd.None? ==>
              (p.answersAvailable <==> a.afterComparing && p.stepsLeft == 0)
  {
    var needed := if a.enableSelfEvaluation then !s.selfEvaluationCompleted else false;
    var steps := s.comparisonsLeft + (if needed then 1 else 0);
    var available := if a.compareEnd.Some? then a.afterComparing
                     else a.afterComparing && s.comparisonsLeft < 1 && !needed;
    Progress(s.comparisonsLeft, needed, steps, available)
  }

  /** Index of the first assignment without a status, or the length when all have one. */
  function FirstWithoutStatus(assignments: seq<ListedAssignment>, statuses: map<string, AssignmentStatus>): (k: nat)
    ensures k <= |assignments|
    ensures forall j :: 0 <= j < k ==> assignments[j].id in statuses
    ensures k < |assignments| ==> assignments[k].id !in statuses
  {
    if |assignments| == 0 || assignments[0].id !in statuses then 0
    else
      var k := 1 + FirstWithoutStatus(assignments[1..], statuses);
      assert forall j :: 1 <= j < |assignments| ==> assignments[j] == assignments[1..][j - 1];
      k
  }

  const AllAssignments := "All course assignments"
  const BeingAnswered := "Assignments being answered"
  const BeingCompared := "Assignments being compared"
  const Upcoming := "Upcoming assignments"
  const MyPending := "My pending assignments"

  /** `assignmentFilter(filter)(assignment)`; `answered` entries that are missing are falsy,
      as is a `steps_left` not derived yet. "All course assignments" keeps everything, a
      name outside the five keeps nothing, and a pending assignment is open for answers or
      comparisons. */
  function AssignmentFilter(filter: string, answered: map<string, bool>, a: ListedAssignment): (keep: bool)
    ensures filter == AllAssignments ==> keep
    ensures filter !in {AllAssignments, BeingAnswered, BeingCompared, Upcoming, MyPending} ==> !keep
    ensures filter == MyPending && keep ==> a.answerPeriod || a.comparePeriod
    ensures filter == MyPending && a.answerPeriod && a.id !in answered ==> keep
  {
    if filter == AllAssignments then true
    else if filter == BeingAnswered then a.answerPeriod
    else if filter == BeingCompared then a.comparePeriod
    else if filter == Upcoming then !a.available
    else if filter == MyPending then
      (a.answerPeriod && !(a.id in answered && answered[a.id])) ||
      (a.comparePeriod && a.progress.Some? && a.progress.value.stepsLeft > 0)
    else false
  }

  /** After the statuses are in, a student's pending list holds exactly the assignments
      still open for an answer they have not given, or in comparison with comparisons or a
      self-evaluation still to do. */
  lemma PendingAfterStatus(answered: map<string, bool>, a: ListedAssignment, s: AssignmentStatus)
    requires s.comparisonsLeft >= 0
    ensures AssignmentFilter(MyPending, answered, a.(progress := Some(DeriveProgress(a, s)))) <==>
              (a.answerPeriod && !(a.id in answered && answered[a.id])) ||
              (a.comparePeriod && (s.comparisonsLeft > 0 || (a.enableSelfEvaluation && !s.selfEvaluationCompleted)))
  {
  }

  class CourseAssignmentsList {
    var assignments: seq<ListedAssignment>
    /** `$scope.answered`, keyed by assignment id. */
    var answered: map<string, bool>

    constructor (fetched: seq<ListedAssignment>)
      ensures assignments == fetched && answered == map[]
    {
      assignments := fetched;
      answered := map[];
    }

    /** The status loop: derive each assignment's progress from its status, in order. An
        assignment without a status stops the loop (the source throws there) and the
        result is false; the assignments before it keep their new progress. */
    method ApplyStatuses(statuses: map<string, AssignmentStatus>) returns (complete: bool)
      modifies this`assignments
      ensures var stop := FirstWithoutStatus(old(assignments), statuses);
        && complete == (stop == |old(assignments)|)
        && |assignments| == |old(assignments)|
        && (forall i :: 0 <= i < stop ==>
              assignments[i] == old(assignments)[i].(progress :=
                                  Some(DeriveProgress(old(assignments)[i], statuses[old(assignments)[i].id]))))
        && (forall i :: stop <= i < |assignments| ==> assignments[i] == old(assignments)[i])
    {
      var key := 0;
      while key < |assignments|
        invariant 0 <= key <= FirstWithoutStatus(old(assignments), statuses)
        invariant |assignments| == |old(assignments)|
        invariant forall i :: 0 <= i < key ==>
                    assignments[i] == old(assignments)[i].(progress :=
                                        Some(DeriveProgress(old(assignments)[i], statuses[old(assignments)[i].id])))
        invariant forall i :: key <= i < |assignments| ==> assignments[i] == old(assignments)[i]
      {
        var assignment := assignments[key];
        if assignment.id !in statuses {
          complete := false;
          return;
        }
        var progress := DeriveProgress(assignment, statuses[assignment.id]);
        assignments := assignments[key := assignment.(progress := Some(progress))];
        key := key + 1;
      }
      complete := true;
    }
  }
}
