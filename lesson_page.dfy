/** The lesson page (src/app/page.tsx): nine tasks, one of them current; a
    task reports completion once, the learner moves between tasks with the
    task buttons or Previous and Next, and the progress bar shows the share of
    completed tasks. */
module LessonPage {
  import opened Common

  /** `tasks.length`. */
  const TaskCount := 9

  /** An entry of the task list: its id and title (the component it shows is
      not part of the model). */
  datatype TaskEntry = TaskEntry(id: int, title: string)

  /** `tasks`. */
  function Tasks(): (ts: seq<TaskEntry>)
    ensures |ts| == TaskCount
  {
    [TaskEntry(1, "Alphabet Practice"),
     TaskEntry(2, "Numbers Practice"),
     TaskEntry(3, "Airport Vocabulary"),
     TaskEntry(4, "Vocabulary Flashcards"),
     TaskEntry(5, "Match Words & Pictures"),
     TaskEntry(6, "Word Search"),
     TaskEntry(7, "Sentence Structure"),
     TaskEntry(8, "Build Sentences"),
     TaskEntry(9, "Check-in Dialog")]
  }

  /** Task `k` sits at position `k - 1`, so `tasks[currentTask - 1]` is the
      task whose id is `currentTask`. */
  lemma TaskIdsArePositions()
    ensures forall i :: 0 <= i < TaskCount ==> Tasks()[i].id == i + 1
  {
    var ts := Tasks();
    assert ts[0].id == 1 && ts[1].id == 2 && ts[2].id == 3;
    assert ts[3].id == 4 && ts[4].id == 5 && ts[5].id == 6;
    assert ts[6].id == 7 && ts[7].id == 8 && ts[8].id == 9;
  }

  predicate IsTaskId(id: int) {
    1 <= id <= TaskCount
  }

  /** The list after `handleTaskComplete(taskId)`: the id is appended only if
      it is absent. */
  function AddCompleted(done: seq<int>, taskId: int): seq<int> {
    if taskId in done then done else done + [taskId]
  }

  /** Completing a task records it, keeps what was there, and repeats
      nothing. */
  lemma AddCompletedSpec(done: seq<int>, taskId: int)
    requires Distinct(done)
    ensures Distinct(AddCompleted(done, taskId))
    ensures Elements(AddCompleted(done, taskId)) == Elements(done) + {taskId}
    ensures |AddCompleted(done, taskId)| == |done| + (if taskId in done then 0 else 1)
  {
    if taskId !in done {
      DistinctAppend(done, taskId);
    }
  }

  /** Completing the same task twice is the same as completing it once. */
  lemma AddCompletedIdempotent(done: seq<int>, taskId: int)
    ensures AddCompleted(AddCompleted(done, taskId), taskId) == AddCompleted(done, taskId)
  {
  }

  /** `Math.round((completed / tasks.length) * 100)`. The exact quotient
      `100 n / 9` is never halfway between two integers, so rounding it half
      up is `floor((200 n + 9) / 18)`. */
  function ProgressPercent(completed: nat): (p: nat)
    ensures 2 * 9 * p <= 200 * completed + 9 < 2 * 9 * (p + 1)
  {
    (200 * completed + 9) / 18
  }

  /** The bar is empty with no task done, full with all nine, and grows with
      each completed task. */
  lemma ProgressRange(m: nat, n: nat)
    requires m < n <= TaskCount
    ensures ProgressPercent(0) == 0 && ProgressPercent(TaskCount) == 100
    ensures ProgressPercent(m) < ProgressPercent(n) <= 100
  {
  }

  /** Every completed task is one of the nine, and none is listed twice. */
  predicate ValidCompleted(done: seq<int>) {
    Distinct(done) && forall t :: t in done ==> IsTaskId(t)
  }

  /** At most the nine tasks can be completed. */
  lemma CompletedBound(done: seq<int>)
    requires ValidCompleted(done)
    ensures |done| <= TaskCount
  {
    var pool: set<int> := {1, 2, 3, 4, 5, 6, 7, 8, 9};
    assert forall t :: t in done ==> t in pool;
    DistinctBound(done, pool);
  }

  /** The state of the `Home` page. */
  class Lesson {
    var currentTask: int
    var completedTasks: seq<int>

    predicate Valid()
      reads this
    {
      IsTaskId(currentTask) && ValidCompleted(completedTasks)
    }

    /** The state before anything is loaded from storage. */
    constructor ()
      ensures Valid()
      ensures currentTask == 1 && completedTasks == []
    {
      currentTask := 1;
      completedTasks := [];
    }

    /** `tasks[currentTask - 1]`: always defined, and the task it names is
        the current one. */
    function CurrentEntry(): (e: TaskEntry)
      reads this
      requires Valid()
      ensures e.id == currentTask
    {
      TaskIdsArePositions();
      Tasks()[currentTask - 1]
    }

    /** `handleTaskComplete(taskId)`; the only caller passes `currentTask`. */
    method HandleTaskComplete(taskId: int)
      requires Valid() && IsTaskId(taskId)
      modifies this
      ensures Valid()
      ensures completedTasks == AddCompleted(old(completedTasks), taskId)
      ensures |completedTasks| <= TaskCount
      ensures currentTask == old(currentTask)
    {
      AddCompletedSpec(completedTasks, taskId);
      if taskId !in completedTasks {
        completedTasks := completedTasks + [taskId];
      }
      CompletedBound(completedTasks);
    }

    /** `handleTaskChange(taskId)`, from the task buttons, which pass the ids
        1 to 9. */
    method HandleTaskChange(taskId: int)
      requires Valid() && IsTaskId(taskId)
      modifies this
      ensures Valid()
      ensures currentTask == taskId && completedTasks == old(completedTasks)
    {
      currentTask := taskId;
    }

    /** The Previous button, shown only while `currentTask > 1`. */
    method Previous()
      requires Valid()
      modifies this
      ensures Valid()
      ensures old(currentTask) > 1 ==> currentTask == old(currentTask) - 1
      ensures old(currentTask) == 1 ==> currentTask == 1
      ensures completedTasks == old(completedTasks)
    {
      if currentTask > 1 {
        currentTask := currentTask - 1;
      }
    }

    /** The Next button, shown only while `currentTask < tasks.length`. */
    method Next()
      requires Valid()
      modifies this
      ensures Valid()
      ensures old(currentTask) < TaskCount ==> currentTask == old(currentTask) + 1
      ensures old(currentTask) == TaskCount ==> currentTask == TaskCount
      ensures completedTasks == old(completedTasks)
    {
      if currentTask < TaskCount {
        currentTask := currentTask + 1;
      }
    }

    /** The reset-progress button, shown only while some task is completed. */
    method ResetProgress()
      requires Valid()
      modifies this
      ensures Valid()
      ensures old(|completedTasks|) > 0 ==> completedTasks == [] && currentTask == 1
      ensures old(|completedTasks|) == 0 ==> completedTasks == old(completedTasks) && currentTask == old(currentTask)
    {
      if |completedTasks| > 0 {
        completedTasks := [];
        currentTask := 1;
      }
    }

    /** The progress bar's width. */
    function Progress(): (p: nat)
      reads this
      requires Valid()
      ensures p <= 100
      ensures p == 100 <==> |completedTasks| == TaskCount
    {
      CompletedBound(completedTasks);
      if |completedTasks| < TaskCount then
        ProgressRange(|completedTasks|, TaskCount);
        ProgressPercent(|completedTasks|)
      else
        ProgressPercent(|completedTasks|)
    }
  }
}
