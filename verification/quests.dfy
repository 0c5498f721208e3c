/** The quest and task definitions the task utilities read. */
module Quests {
  import opened Config

  /** A task of a quest: its id, its task type and its configuration. */
  datatype Task = Task(id: string, taskType: string, config: Section)

  /** A quest: its id and its tasks in declaration order. */
  datatype Quest = Quest(id: string, tasks: seq<Task>)

  /** Quest.getTasksOfType: the quest's tasks of one type, in declaration order. */
  function TasksOfType(tasks: seq<Task>, taskType: string): (r: seq<Task>)
    ensures forall t :: t in r <==> t in tasks && t.taskType == taskType
    ensures |r| <= |tasks|
  {
    if tasks == [] then []
    else if tasks[0].taskType == taskType then [tasks[0]] + TasksOfType(tasks[1..], taskType)
    else TasksOfType(tasks[1..], taskType)
  }

  /** Selecting by type keeps declaration order: the tasks of two runs of
      tasks are those of the first run followed by those of the second. */
  lemma {:induction false} TasksOfTypeAppend(a: seq<Task>, b: seq<Task>, taskType: string)
    ensures TasksOfType(a + b, taskType) == TasksOfType(a, taskType) + TasksOfType(b, taskType)
  {
    if a == [] {
      assert a + b == b;
    } else {
      assert (a + b)[0] == a[0];
      assert (a + b)[1..] == a[1..] + b;
      TasksOfTypeAppend(a[1..], b, taskType);
    }
  }
}
