/**
 * The action sequencer of pending_actions.py: for each robot id, a FIFO
 * queue of actions waiting to be dispatched and the one action the robot is
 * executing. A completion report advances the robot's sequence only when it
 * names the executing action.
 */
module PendingActions {
  import opened Wrappers
  import opened Actions

  /** What a matched completion hands back: the action to dispatch next and the one just finished. */
  datatype Progress = Progress(next: Action, completed: Action)

  /**
   * A snapshot of the manager's two dictionaries: `queues` is
   * _robot_action_queues (a deque per robot, here a sequence whose front is
   * the left end) and `executing` is _robot_current_executing_action.
   */
  datatype Sequencer = Sequencer(queues: map<string, seq<Action>>, executing: map<string, Action>)
  {
    /** A robot has a queue entry exactly when it has an executing action. */
    ghost predicate Valid() {
      queues.Keys == executing.Keys
    }

    /** The robot's queue entry, if it has one. */
    function Queue(id: string): (r: Option<seq<Action>>)
      ensures r.Some? <==> id in queues
      ensures r.Some? ==> r.value == queues[id]
    {
      if id in queues then Some(queues[id]) else None
    }

    /** The action the robot is executing, if any. */
    function Executing(id: string): (r: Option<Action>)
      ensures r.Some? <==> id in executing
      ensures r.Some? ==> r.value == executing[id]
    {
      if id in executing then Some(executing[id]) else None
    }

    /**
     * has_pending_actions: the robot has a queue entry or an executing
     * action; under the invariant, exactly when it is executing one.
     */
    predicate HasPendingActions(id: string)
      ensures HasPendingActions(id) <==> Queue(id).Some? || Executing(id).Some?
      ensures Valid() ==> (HasPendingActions(id) <==> Executing(id).Some?)
    {
      id in queues || id in executing
    }

    /**
     * cancel_robot_actions: the robot is left with nothing pending, and no
     * other robot's state changes.
     */
    function CancelRobotActions(id: string): (r: Sequencer)
      ensures !r.HasPendingActions(id)
      ensures forall other :: other != id ==> r.Queue(other) == Queue(other)
      ensures forall other :: other != id ==> r.Executing(other) == Executing(other)
    {
      Sequencer(queues - {id}, executing - {id})
    }

    /**
     * create_action_sequence: whatever the robot had is discarded first; an
     * empty list leaves it with nothing pending and returns None; otherwise
     * the first action is returned and executing, and the rest wait in the
     * queue in their order. No other robot's state changes.
     */
    function CreateActionSequence(id: string, actions: seq<Action>): (r: (Sequencer, Option<Action>))
      ensures actions == [] ==> r.1 == None && !r.0.HasPendingActions(id)
      ensures actions != [] ==> r.1 == Some(actions[0]) && r.0.Executing(id) == Some(actions[0])
      ensures actions != [] ==> r.0.Queue(id) == Some(actions[1..])
      ensures forall other :: other != id ==> r.0.Queue(other) == Queue(other)
      ensures forall other :: other != id ==> r.0.Executing(other) == Executing(other)
    {
      var cleared := CancelRobotActions(id);
      if actions == [] then
        (cleared, None)
      else
        (Sequencer(cleared.queues[id := actions[1..]], cleared.executing[id := actions[0]]), Some(actions[0]))
    }

    /**
     * process_robot_completion: a report that does not name the executing
     * action changes nothing and returns None. A matching report with a
     * non-empty queue moves the queue's head to executing and returns it
     * with the completed action; with an empty queue the robot is left with
     * nothing pending and None is returned.
     */
    function ProcessRobotCompletion(id: string, completedActionId: string): (r: (Sequencer, Option<Progress>))
      ensures Executing(id).None? || Executing(id).value.actionId != completedActionId ==> r == (this, None)
      ensures r.1.Some? ==> Executing(id) == Some(r.1.value.completed)
                            && r.1.value.completed.actionId == completedActionId
      ensures r.1.Some? <==> Executing(id).Some? && Executing(id).value.actionId == completedActionId
                             && Queue(id).Some? && Queue(id).value != []
      ensures r.1.Some? ==> Queue(id).value[0] == r.1.value.next
                            && r.0.Executing(id) == Some(r.1.value.next)
                            && r.0.Queue(id) == Some(Queue(id).value[1..])
      ensures Executing(id).Some? && Executing(id).value.actionId == completedActionId && r.1.None?
              ==> !r.0.HasPendingActions(id)
      ensures forall other :: other != id ==> r.0.Queue(other) == Queue(other)
      ensures forall other :: other != id ==> r.0.Executing(other) == Executing(other)
    {
      if id !in executing || executing[id].actionId != completedActionId then
        (this, None)
      else if id in queues && |queues[id]| > 0 then
        var next := queues[id][0];
        (Sequencer(queues[id := queues[id][1..]], executing[id := next]), Some(Progress(next, executing[id])))
      else
        (Sequencer(queues - {id}, executing - {id}), None)
    }
  }

  lemma CancelKeepsValid(s: Sequencer, id: string)
    requires s.Valid()
    ensures s.CancelRobotActions(id).Valid()
  {
  }

  lemma CreateKeepsValid(s: Sequencer, id: string, actions: seq<Action>)
    requires s.Valid()
    ensures s.CreateActionSequence(id, actions).0.Valid()
  {
  }

  lemma CompletionKeepsValid(s: Sequencer, id: string, completedActionId: string)
    requires s.Valid()
    ensures s.ProcessRobotCompletion(id, completedActionId).0.Valid()
  {
  }

  /** cancel_robot_actions is idempotent. */
  lemma CancelIdempotent(s: Sequencer, id: string)
    ensures s.CancelRobotActions(id).CancelRobotActions(id) == s.CancelRobotActions(id)
  {
  }

  /** The identifiers of a list of actions, in order. */
  function Ids(actions: seq<Action>): (r: seq<string>)
    ensures |r| == |actions|
    ensures forall i :: 0 <= i < |actions| ==> r[i] == actions[i].actionId
  {
    if actions == [] then [] else [actions[0].actionId] + Ids(actions[1..])
  }

  /**
   * Feeds the robot's completion reports to process_robot_completion one
   * after the other; returns the final state and each call's result.
   */
  function Replay(s: Sequencer, id: string, reports: seq<string>): (r: (Sequencer, seq<Option<Progress>>))
    ensures |r.1| == |reports|
    decreases |reports|
  {
    if reports == [] then
      (s, [])
    else
      var (s1, result) := s.ProcessRobotCompletion(id, reports[0]);
      var (s2, results) := Replay(s1, id, reports[1..]);
      (s2, [result] + results)
  }

  /**
   * What completing a sequence in order reports: each action but the last
   * is answered with (its successor, itself); the last one with None, as
   * pending_actions.py:52-55 returns nothing when the queue runs dry.
   */
  function Walk(actions: seq<Action>): (r: seq<Option<Progress>>)
    requires actions != []
    ensures |r| == |actions|
    ensures forall i :: 0 <= i < |actions| - 1 ==> r[i] == Some(Progress(actions[i + 1], actions[i]))
    ensures r[|actions| - 1] == None
  {
    if |actions| == 1 then [None]
    else [Some(Progress(actions[1], actions[0]))] + Walk(actions[1..])
  }

  /**
   * A robot executing `current` with `rest` queued, reporting the
   * completion of each action in turn, gets back the walk of
   * [current] + rest and ends with nothing pending; other robots are
   * untouched.
   */
  lemma {:induction false} ReplayWalksQueue(s: Sequencer, id: string, current: Action, rest: seq<Action>)
    requires s.Executing(id) == Some(current) && s.Queue(id) == Some(rest)
    ensures Replay(s, id, Ids([current] + rest)).1 == Walk([current] + rest)
    ensures !Replay(s, id, Ids([current] + rest)).0.HasPendingActions(id)
    ensures forall other :: other != id ==>
              Replay(s, id, Ids([current] + rest)).0.Queue(other) == s.Queue(other)
              && Replay(s, id, Ids([current] + rest)).0.Executing(other) == s.Executing(other)
    decreases |rest|
  {
    var all := [current] + rest;
    var reports := Ids(all);
    var (s1, result) := s.ProcessRobotCompletion(id, reports[0]);
    assert reports[1..] == Ids(rest);
    if rest == [] {
      assert result == None;
      assert Replay(s1, id, reports[1..]) == (s1, []);
    } else {
      assert result == Some(Progress(rest[0], current));
      assert [rest[0]] + rest[1..] == rest;
      ReplayWalksQueue(s1, id, rest[0], rest[1..]);
      assert all[1..] == rest;
    }
  }

  /**
   * Completing the actions of a new sequence in order walks the list front
   * to back: every action but the last is answered with its successor, and
   * after the last the robot has nothing pending.
   */
  lemma SequenceRunsFrontToBack(s: Sequencer, id: string, actions: seq<Action>)
    requires actions != []
    ensures var (started, first) := s.CreateActionSequence(id, actions);
            first == Some(actions[0])
            && Replay(started, id, Ids(actions)).1 == Walk(actions)
            && !Replay(started, id, Ids(actions)).0.HasPendingActions(id)
  {
    var started := s.CreateActionSequence(id, actions).0;
    assert [actions[0]] + actions[1..] == actions;
    ReplayWalksQueue(started, id, actions[0], actions[1..]);
  }

  /**
   * A new sequence supersedes the old one: after create_action_sequence
   * with a non-empty list, a completion report changes the state exactly
   * when it names the list's first action, so the actions of the earlier
   * sequence can no longer be resolved.
   */
  lemma NewSequenceSupersedes(s: Sequencer, id: string, actions: seq<Action>, report: string)
    requires actions != []
    ensures var started := s.CreateActionSequence(id, actions).0;
            started.ProcessRobotCompletion(id, report).0 != started <==> report == actions[0].actionId
  {
  }

  /**
   * The manager: the two dictionaries of PendingActionManager as fields that
   * the methods update in place.
   */
  class PendingActionManager {
    var robotActionQueues: map<string, seq<Action>>
    var robotCurrentExecutingAction: map<string, Action>

    /** The current contents of the two dictionaries; has_pending_actions reads it. */
    function State(): Sequencer
      reads this
    {
      Sequencer(robotActionQueues, robotCurrentExecutingAction)
    }

    constructor ()
      ensures State() == Sequencer(map[], map[]) && State().Valid()
    {
      robotActionQueues, robotCurrentExecutingAction := map[], map[];
    }

    method CancelRobotActions(robotId: string)
      modifies this
      ensures State() == old(State()).CancelRobotActions(robotId)
      ensures old(State()).Valid() ==> State().Valid()
    {
      robotCurrentExecutingAction := robotCurrentExecutingAction - {robotId};
      robotActionQueues := robotActionQueues - {robotId};
    }

    method CreateActionSequence(robotId: string, actions: seq<Action>) returns (first: Option<Action>)
      modifies this
      ensures (State(), first) == old(State()).CreateActionSequence(robotId, actions)
      ensures old(State()).Valid() ==> State().Valid()
    {
      ghost var before := State();
      if before.Valid() { CreateKeepsValid(before, robotId, actions); }
      CancelRobotActions(robotId);
      if actions == [] {
        return None;
      }
      var actionQueue: seq<Action> := [];
      for i := 0 to |actions|
        invariant actionQueue == actions[..i]
      {
        actionQueue := actionQueue + [actions[i]];
      }
      assert actionQueue == actions;
      // The deque is stored first and then popped from its left end in place.
      robotActionQueues := robotActionQueues[robotId := actionQueue];
      var firstAction := actionQueue[0];
      robotActionQueues := robotActionQueues[robotId := actionQueue[1..]];
      robotCurrentExecutingAction := robotCurrentExecutingAction[robotId := firstAction];
      assert robotActionQueues == before.CancelRobotActions(robotId).queues[robotId := actions[1..]];
      return Some(firstAction);
    }

    method ProcessRobotCompletion(robotId: string, completedActionId: string) returns (r: Option<Progress>)
      modifies this
      ensures (State(), r) == old(State()).ProcessRobotCompletion(robotId, completedActionId)
      ensures old(State()).Valid() ==> State().Valid()
    {
      ghost var before := State();
      if before.Valid() { CompletionKeepsValid(before, robotId, completedActionId); }
      if robotId !in robotCurrentExecutingAction
         || robotCurrentExecutingAction[robotId].actionId != completedActionId
      {
        return None;
      }
      var current := robotCurrentExecutingAction[robotId];
      robotCurrentExecutingAction := robotCurrentExecutingAction - {robotId};
      if robotId in robotActionQueues && |robotActionQueues[robotId]| > 0 {
        var actionQueue := robotActionQueues[robotId];
        var next := actionQueue[0];
        assert (before.executing - {robotId})[robotId := next] == before.executing[robotId := next];
        robotActionQueues := robotActionQueues[robotId := actionQueue[1..]];
        robotCurrentExecutingAction := robotCurrentExecutingAction[robotId := next];
        return Some(Progress(next, current));
      } else {
        robotActionQueues := robotActionQueues - {robotId};
        return None;
      }
    }
  }
}
