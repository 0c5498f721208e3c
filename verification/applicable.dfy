/** Task selection: TaskUtils.validateWorld and TaskUtils.getApplicableTasks,
    which collect the tasks of one type that a player is currently working on. */
module Applicable {
  import opened JavaLang
  import opened Config
  import opened Quests
  import opened Progress

  // ---------------------------------------------------------------------------
  // validateWorld

  /** TaskUtils.validateWorld(String, Object): a list of world names allows the
      worlds it contains, a single name allows that world, and no setting (or
      a setting of any other type) allows every world. */
  function ValidateWorld(worldName: string, data: Value): (r: bool)
    ensures !r ==> data.CList? || data.CStr?
    ensures data.CList? ==> (r <==> CStr(worldName) in data.items)
    ensures data.CStr? ==> (r <==> data.s == worldName)
  {
    match data
    case CList(items) => CStr(worldName) in items
    case CStr(allowed) => worldName == allowed
    case _ => true
  }

  /** TaskUtils.validateWorld(String, Task): the task's `worlds` setting. */
  function ValidateTaskWorld(worldName: string, task: Task): bool
  {
    ValidateWorld(worldName, Get(task.config, "worlds"))
  }

  /** A single world name allows what a one-element list of it allows, and a
      task without a `worlds` setting is allowed in every world. */
  lemma WorldSettingShapes(worldName: string, allowed: string, task: Task)
    ensures ValidateWorld(worldName, CStr(allowed)) == ValidateWorld(worldName, CList([CStr(allowed)]))
    ensures "worlds" !in task.config ==> ValidateTaskWorld(worldName, task)
    ensures ValidateWorld(worldName, CList([])) == false
  {
  }

  // ---------------------------------------------------------------------------
  // The player's record

  /** A quest's progress: whether it is started, and the progress record of
      each task by task id. */
  datatype QuestProgress = QuestProgress(started: bool, taskProgress: map<string, TaskProgress>)

  /** A player's quest progress file, by quest id. */
  datatype QPlayer = QPlayer(questProgress: map<string, QuestProgress>)

  datatype TaskConstraint = World

  /** A task the player is working on, with the records an event handler will
      update. */
  datatype PendingTask = PendingTask(quest: Quest, task: Task, questProgress: QuestProgress, taskProgress: TaskProgress)

  /** QPlayer.hasStartedQuest. */
  predicate HasStartedQuest(qPlayer: QPlayer, quest: Quest)
  {
    quest.id in qPlayer.questProgress && qPlayer.questProgress[quest.id].started
  }

  /** Every progress record of the player. */
  function ProgressRecords(qPlayer: QPlayer): set<TaskProgress>
  {
    set q, t | q in qPlayer.questProgress && t in qPlayer.questProgress[q].taskProgress
      :: qPlayer.questProgress[q].taskProgress[t]
  }

  /** Every task the selection looks up has a progress record. */
  predicate Tracked(qPlayer: QPlayer, quests: seq<Quest>, taskType: string)
  {
    forall i, t :: 0 <= i < |quests| && HasStartedQuest(qPlayer, quests[i]) && t in quests[i].tasks &&
                   t.taskType == taskType ==>
                     t.id in qPlayer.questProgress[quests[i].id].taskProgress
  }

  // ---------------------------------------------------------------------------
  // The selection, as a specification

  /** The tasks of one started quest that qualify, in declaration order;
      `tasks` is a prefix of the quest's tasks of the type. */
  function PendingOfQuest(quest: Quest, qp: QuestProgress, tasks: seq<Task>, worldName: string, worldConstraint: bool): seq<PendingTask>
    requires forall t :: t in tasks ==> t.id in qp.taskProgress
    reads set t | t in tasks :: qp.taskProgress[t.id]
  {
    if tasks == [] then []
    else
      var task := tasks[|tasks| - 1];
      var rest := PendingOfQuest(quest, qp, tasks[..|tasks| - 1], worldName, worldConstraint);
      if worldConstraint && !ValidateTaskWorld(worldName, task) then rest
      else if qp.taskProgress[task.id].completed then rest
      else rest + [PendingTask(quest, task, qp, qp.taskProgress[task.id])]
  }

  /** The pending tasks of the given quests, quest by quest. */
  function Pending(qPlayer: QPlayer, quests: seq<Quest>, taskType: string, worldName: string, worldConstraint: bool): seq<PendingTask>
    requires Tracked(qPlayer, quests, taskType)
    reads ProgressRecords(qPlayer)
  {
    if quests == [] then []
    else
      var quest := quests[|quests| - 1];
      var rest := Pending(qPlayer, quests[..|quests| - 1], taskType, worldName, worldConstraint);
      if !HasStartedQuest(qPlayer, quest) then rest
      else
        var qp := qPlayer.questProgress[quest.id];
        assert forall t :: t in TasksOfType(quest.tasks, taskType) ==> t.id in qp.taskProgress;
        rest + PendingOfQuest(quest, qp, TasksOfType(quest.tasks, taskType), worldName, worldConstraint)
  }

  /** Whether one task of a quest qualifies. */
  predicate Qualifies(qPlayer: QPlayer, quest: Quest, task: Task, taskType: string, worldName: string, worldConstraint: bool)
    requires HasStartedQuest(qPlayer, quest) ==> task.id in qPlayer.questProgress[quest.id].taskProgress
    reads ProgressRecords(qPlayer)
  {
    && HasStartedQuest(qPlayer, quest)
    && task in quest.tasks && task.taskType == taskType
    && (worldConstraint ==> ValidateTaskWorld(worldName, task))
    && !qPlayer.questProgress[quest.id].taskProgress[task.id].completed
  }

  // ---------------------------------------------------------------------------
  // The selection, as the source computes it

  /** TaskUtils.getApplicableTasks; `quests` are the quests registered for the
      task type, in registration order, and `worldName` is the player's world. */
  method GetApplicableTasks(worldName: string, qPlayer: QPlayer, quests: seq<Quest>, taskType: string,
                            constraints: seq<TaskConstraint>) returns (tasks: seq<PendingTask>)
    requires Tracked(qPlayer, quests, taskType)
    ensures tasks == Pending(qPlayer, quests, taskType, worldName, World in constraints)
  {
    tasks := [];
    var containsWorldConstraint := World in constraints;
    for i := 0 to |quests|
      invariant Tracked(qPlayer, quests[..i], taskType)
      invariant tasks == Pending(qPlayer, quests[..i], taskType, worldName, containsWorldConstraint)
    {
      var quest := quests[i];
      if HasStartedQuest(qPlayer, quest) {
        var questProgress := qPlayer.questProgress[quest.id];
        var ofType := TasksOfType(quest.tasks, taskType);
        TrackedQuest(qPlayer, quests, taskType, i);
        ghost var before := tasks;
        for j := 0 to |ofType|
          invariant tasks == before + PendingOfQuest(quest, questProgress, ofType[..j], worldName, containsWorldConstraint)
        {
          var task := ofType[j];
          assert ofType[..j + 1][..j] == ofType[..j];
          if containsWorldConstraint && !ValidateTaskWorld(worldName, task) {
            continue;
          }
          var taskProgress := questProgress.taskProgress[task.id];
          if taskProgress.completed {
            continue;
          }
          tasks := tasks + [PendingTask(quest, task, questProgress, taskProgress)];
        }
        assert ofType[..|ofType|] == ofType;
      }
      PendingStep(qPlayer, quests, taskType, worldName, containsWorldConstraint, i);
    }
    assert quests[..|quests|] == quests;
  }

  /** Every task of the type in a started quest has a progress record. */
  lemma TrackedQuest(qPlayer: QPlayer, quests: seq<Quest>, taskType: string, i: nat)
    requires Tracked(qPlayer, quests, taskType) && i < |quests| && HasStartedQuest(qPlayer, quests[i])
    ensures forall t :: t in TasksOfType(quests[i].tasks, taskType) ==> t.id in qPlayer.questProgress[quests[i].id].taskProgress
  {
  }

  /** One quest more: the selection over the first i + 1 quests is the
      selection over the first i followed by that quest's pending tasks. */
  lemma PendingStep(qPlayer: QPlayer, quests: seq<Quest>, taskType: string, worldName: string, worldConstraint: bool, i: nat)
    requires Tracked(qPlayer, quests, taskType) && i < |quests|
    ensures Tracked(qPlayer, quests[..i], taskType) && Tracked(qPlayer, quests[..i + 1], taskType)
    ensures HasStartedQuest(qPlayer, quests[i]) ==>
              forall t :: t in TasksOfType(quests[i].tasks, taskType) ==> t.id in qPlayer.questProgress[quests[i].id].taskProgress
    ensures Pending(qPlayer, quests[..i + 1], taskType, worldName, worldConstraint) ==
            Pending(qPlayer, quests[..i], taskType, worldName, worldConstraint) +
            (if HasStartedQuest(qPlayer, quests[i])
             then PendingOfQuest(quests[i], qPlayer.questProgress[quests[i].id], TasksOfType(quests[i].tasks, taskType),
                                 worldName, worldConstraint)
             else [])
  {
    assert quests[..i + 1][..i] == quests[..i];
    assert quests[..i + 1][i] == quests[i];
  }

  // ---------------------------------------------------------------------------
  // What the selection contains

  lemma {:induction false} PendingOfQuestMembers(quest: Quest, qp: QuestProgress, tasks: seq<Task>, worldName: string,
                                                 worldConstraint: bool, pt: PendingTask)
    requires forall t :: t in tasks ==> t.id in qp.taskProgress
    ensures pt in PendingOfQuest(quest, qp, tasks, worldName, worldConstraint) <==>
              && pt.quest == quest && pt.questProgress == qp && pt.task in tasks
              && (worldConstraint ==> ValidateTaskWorld(worldName, pt.task))
              && pt.taskProgress == qp.taskProgress[pt.task.id] && !pt.taskProgress.completed
  {
    if tasks != [] {
      var init := tasks[..|tasks| - 1];
      assert tasks == init + [tasks[|tasks| - 1]];
      PendingOfQuestMembers(quest, qp, init, worldName, worldConstraint, pt);
    }
  }

  /** getApplicableTasks returns a task exactly when it is a task of the
      requested type in a quest the player has started, passes the world check
      when that constraint is given, and is not completed; the entry carries
      the task's quest and progress records. */
  lemma {:induction false} PendingMembers(qPlayer: QPlayer, quests: seq<Quest>, taskType: string, worldName: string,
                                          worldConstraint: bool, pt: PendingTask)
    requires Tracked(qPlayer, quests, taskType)
    ensures pt in Pending(qPlayer, quests, taskType, worldName, worldConstraint) <==>
              && pt.quest in quests
              && HasStartedQuest(qPlayer, pt.quest)
              && pt.questProgress == qPlayer.questProgress[pt.quest.id]
              && pt.task.id in pt.questProgress.taskProgress
              && pt.taskProgress == pt.questProgress.taskProgress[pt.task.id]
              && Qualifies(qPlayer, pt.quest, pt.task, taskType, worldName, worldConstraint)
  {
    if quests != [] {
      var init := quests[..|quests| - 1];
      var quest := quests[|quests| - 1];
      assert quests == init + [quest];
      assert Tracked(qPlayer, init, taskType) by {
        forall i, t | 0 <= i < |init| && HasStartedQuest(qPlayer, init[i]) && t in init[i].tasks && t.taskType == taskType
          ensures t.id in qPlayer.questProgress[init[i].id].taskProgress
        {
          assert init[i] == quests[i];
        }
      }
      PendingMembers(qPlayer, init, taskType, worldName, worldConstraint, pt);
      if HasStartedQuest(qPlayer, quest) {
        var qp := qPlayer.questProgress[quest.id];
        var ofType := TasksOfType(quest.tasks, taskType);
        assert forall t :: t in ofType ==> t.id in qp.taskProgress by {
          forall t | t in ofType ensures t.id in qp.taskProgress {
            assert quests[|quests| - 1] == quest;
          }
        }
        PendingOfQuestMembers(quest, qp, ofType, worldName, worldConstraint, pt);
      }
    }
  }

  /** Selecting over two runs of quests is selecting over each in turn: the
      result lists quests in registration order. */
  lemma {:induction false} PendingAppend(qPlayer: QPlayer, quests1: seq<Quest>, quests2: seq<Quest>, taskType: string,
                                         worldName: string, worldConstraint: bool)
    requires Tracked(qPlayer, quests1 + quests2, taskType)
    ensures Tracked(qPlayer, quests1, taskType) && Tracked(qPlayer, quests2, taskType)
    ensures Pending(qPlayer, quests1 + quests2, taskType, worldName, worldConstraint) ==
            Pending(qPlayer, quests1, taskType, worldName, worldConstraint) +
            Pending(qPlayer, quests2, taskType, worldName, worldConstraint)
    decreases |quests2|
  {
    var all := quests1 + quests2;
    assert Tracked(qPlayer, quests1, taskType) by {
      forall i, t | 0 <= i < |quests1| && HasStartedQuest(qPlayer, quests1[i]) && t in quests1[i].tasks && t.taskType == taskType
        ensures t.id in qPlayer.questProgress[quests1[i].id].taskProgress
      {
        assert all[i] == quests1[i];
      }
    }
    assert Tracked(qPlayer, quests2, taskType) by {
      forall i, t | 0 <= i < |quests2| && HasStartedQuest(qPlayer, quests2[i]) && t in quests2[i].tasks && t.taskType == taskType
        ensures t.id in qPlayer.questProgress[quests2[i].id].taskProgress
      {
        assert all[|quests1| + i] == quests2[i];
      }
    }
    if quests2 == [] {
      assert all == quests1;
    } else {
      var init2 := quests2[..|quests2| - 1];
      assert all[..|all| - 1] == quests1 + init2;
      assert all[|all| - 1] == quests2[|quests2| - 1];
      PendingAppend(qPlayer, quests1, init2, taskType, worldName, worldConstraint);
    }
  }

  /** Without the world constraint the player's world is never consulted. */
  lemma {:induction false} NoConstraintIgnoresWorld(qPlayer: QPlayer, quests: seq<Quest>, taskType: string,
                                                    world1: string, world2: string)
    requires Tracked(qPlayer, quests, taskType)
    ensures Pending(qPlayer, quests, taskType, world1, false) == Pending(qPlayer, quests, taskType, world2, false)
  {
    if quests != [] {
      var init := quests[..|quests| - 1];
      assert Tracked(qPlayer, init, taskType) by {
        forall i, t | 0 <= i < |init| && HasStartedQuest(qPlayer, init[i]) && t in init[i].tasks && t.taskType == taskType
          ensures t.id in qPlayer.questProgress[init[i].id].taskProgress
        {
          assert init[i] == quests[i];
        }
      }
      NoConstraintIgnoresWorld(qPlayer, init, taskType, world1, world2);
      var quest := quests[|quests| - 1];
      if HasStartedQuest(qPlayer, quest) {
        var qp := qPlayer.questProgress[quest.id];
        PendingOfQuestWorldFree(quest, qp, TasksOfType(quest.tasks, taskType), world1, world2);
      }
    }
  }

  lemma {:induction false} PendingOfQuestWorldFree(quest: Quest, qp: QuestProgress, tasks: seq<Task>, world1: string, world2: string)
    requires forall t :: t in tasks ==> t.id in qp.taskProgress
    ensures PendingOfQuest(quest, qp, tasks, world1, false) == PendingOfQuest(quest, qp, tasks, world2, false)
  {
    if tasks != [] {
      var init := tasks[..|tasks| - 1];
      assert forall t :: t in init ==> t in tasks;
      PendingOfQuestWorldFree(quest, qp, init, world1, world2);
    }
  }
}
