# Robot server: connection registry and action sequencer

This project models the stateful core of a robot-control server in Dafny. In the server, one operator client controls one robot over WebSockets. The core has two parts:

- **The connection registry** (`connections.py`). Three dictionaries record the pairing:
  - `robot_connections` maps a robot id to its socket.
  - `client_connections` maps a robot id to the socket of the client that controls it.
  - `client_to_robot_mapping` maps a client socket back to its robot id.

  Registration is check-then-set. A robot id has at most one socket. A robot has at most one client, and only a registered robot can have one. Teardown clears the forward and reverse entries together.
- **The action sequencer** (`pending_actions.py`, class `PendingActionManager`). For each robot id it keeps a FIFO queue of actions and the one action being executed. A completion report advances the robot's sequence only when it names the executing action. Creating a new sequence first discards the old one.

Each part is modelled in two layers:

- **A value datatype.** `Connections.Registry` and `PendingActions.Sequencer` are snapshots of the dictionaries. Each source operation is a function on the snapshot, and its contract states what the source promises. The read-only queries (`get_robot`, `get_client`, `is_robot_available`, `get_robot_status`, `get_all_robots_status`, `has_pending_actions`) are functions on the snapshot.
- **A class.** `Connections.ConnectionRegistry` and `PendingActions.PendingActionManager` hold the dictionaries as `map` fields and update them in place, step by step as the Python does. The one exception is `ConnectionRegistry.UnregisterClient`, which follows the corrected operation (see "## Findings"). Each method is proved to leave exactly the state that the snapshot function computes, and to keep the invariant where the snapshot lemmas prove it.

Lemmas relate the operations to each other:

- The sequencer's operations all preserve its invariant: a robot has a queue entry exactly when it has an executing action.
- The registry's invariant is that the reverse index is the inverse of the client map. `register_robot` and `unregister_robot` preserve it, and so does the corrected `unregister_client`. `register_client` preserves it only when the socket is not already paired. The code's own `unregister_client` breaks it for the robot id "".
- `unregister_robot` and `cancel_robot_actions` are idempotent.
- The status listing agrees with the pairing.
- Reporting the completions of a new sequence in order walks its actions front to back.
- A new non-empty sequence makes the earlier one's actions unresolvable: only a report naming its first action changes the state.

Sockets are opaque handles, written as the type parameter `W`. Actions are the `Action` record of `model.py`: an id, an intent and a parameter map.

Three behaviours of the code that a reader might not expect, all modelled as written:

- When the last action of a sequence completes, `process_robot_completion` returns `None`, not a pair with no next action (`pending_actions.py:52-55`).
- `get_robot_status` has no "disconnected" status. It answers "available" for any id without a client, registered or not (`connections.py:80-87`).
- A dataclass instance is always truthy. So the guard `not current_executing_action` at `pending_actions.py:41` only tests for a missing entry.

## Model

| member | source | states |
|---|---|---|
| Connections.Registry.GetRobot | connections.py:62-66 | the robot's socket when registered, None otherwise |
| Connections.Registry.GetClient | connections.py:68-72 | the controlling client's socket when paired, None otherwise |
| Connections.Registry.RegisterRobot | connections.py:9-17 | succeeds iff the id has no socket; on failure nothing changes and get_robot still returns the original socket; on success get_robot(id) returns the new socket and no other robot's entry, client entry or reverse entry changes |
| Connections.Registry.UnregisterRobot | connections.py:19-28 | afterwards the id has neither a socket nor a client; the client's reverse entry is removed too; all other robots' sockets and clients are unchanged; on an unknown id nothing changes |
| Connections.Registry.RegisterClient | connections.py:35-52 | succeeds iff the robot is available (registered and without a client); on failure nothing changes and the existing client is still returned; on success get_client(id) is the socket and the reverse map sends the socket to the id; other robots' clients and all robot sockets are unchanged |
| Connections.Registry.UnregisterClientAsWritten | connections.py:54-60 | the code as written: the reverse entry is always removed, and the client entry only when the robot id found is not the empty string; an unpaired socket changes nothing |
| Connections.Registry.UnregisterClient | connections.py:54-60 | corrected: the reverse map loses exactly the socket's entry; a paired socket's robot loses its client entry; other robots' clients and all robot sockets are unchanged; an unpaired socket changes nothing |
| Connections.Registry.IsRobotAvailable | connections.py:74-78 | true iff the robot is registered and has no client, which is exactly when register_client would accept a client |
| Connections.Registry.GetRobotStatus | connections.py:80-87 | Controlled iff a client is paired; for a registered robot, Available iff the robot is available for control |
| Connections.Registry.GetAllRobotsStatus | connections.py:89-93 | keys are exactly the registered robot ids, each mapped to its get_robot_status |
| Connections.RegisterRobotKeepsValid | connections.py:13-17 | register_robot preserves the registry invariant |
| Connections.UnregisterRobotKeepsValid | connections.py:23-28 | unregister_robot preserves the registry invariant |
| Connections.RegisterClientKeepsValid | connections.py:42-52 | register_client preserves the registry invariant when the socket is not already paired |
| Connections.RegisterPairedSocketBreaksValid | connections.py:46-52 | pairing an already paired socket with a second robot breaks the inverse-map invariant, so the proviso above is needed |
| Connections.UnregisterClientKeepsValid | connections.py:58-60 | the corrected unregister_client preserves the registry invariant |
| Connections.UnregisterClientAsWrittenKeepsEmptyId | connections.py:58-60 | as written, a client of robot "" stays recorded after unregistering; the robot stays Controlled, no other client can take it, and the invariant breaks |
| Connections.CorrectionOnlyAffectsEmptyId | connections.py:58-60 | for an unpaired socket, or one paired with a non-empty robot id, the code as written and the corrected operation give the same state |
| Connections.UnregisterClientFreesRobot | connections.py:58-60 | after its client unregisters, a robot is available again and its status is Available |
| Connections.UnregisterRobotIdempotent | connections.py:23-28 | unregistering a robot twice equals unregistering it once |
| Connections.StatusListingAgrees | connections.py:74-93 | under the invariant, the listing says Controlled iff get_client finds a client, and Available iff is_robot_available holds |
| Connections.ConnectionRegistry.constructor | connections.py:5-7 | the three dictionaries start empty, satisfying the invariant |
| Connections.ConnectionRegistry.RegisterRobot | connections.py:9-17 | updates the fields to exactly the state and result of Registry.RegisterRobot and keeps the invariant |
| Connections.ConnectionRegistry.UnregisterRobot | connections.py:19-28 | updates the fields to exactly Registry.UnregisterRobot and keeps the invariant |
| Connections.ConnectionRegistry.RegisterClient | connections.py:35-52 | updates the fields to exactly the state and result of Registry.RegisterClient; keeps the invariant when the socket was unpaired |
| Connections.ConnectionRegistry.UnregisterClient | connections.py:54-60 | updates the fields to exactly the corrected Registry.UnregisterClient and keeps the invariant |
| PendingActions.Sequencer.HasPendingActions | pending_actions.py:62-64 | true iff the robot has a queue entry or an executing action; under the invariant, iff it has an executing action |
| PendingActions.Sequencer.CancelRobotActions | pending_actions.py:57-60 | afterwards the robot has nothing pending; every other robot's queue and executing action are unchanged |
| PendingActions.Sequencer.CreateActionSequence | pending_actions.py:12-32 | the robot's prior state is discarded; an empty list returns None and leaves nothing pending; otherwise returns actions[0], which becomes executing, and actions[1..] is the queue in order; other robots are unchanged |
| PendingActions.Sequencer.ProcessRobotCompletion | pending_actions.py:34-55 | without an executing action, or with a mismatched id, returns None and changes nothing; on a match with a non-empty queue returns (old queue head, completed action), makes the head executing and shrinks the queue by its head; on a match with an empty queue returns None and leaves nothing pending; other robots are unchanged |
| PendingActions.CancelKeepsValid | pending_actions.py:57-60 | cancel preserves "queue entry present iff executing entry present" |
| PendingActions.CreateKeepsValid | pending_actions.py:12-32 | create_action_sequence preserves the invariant |
| PendingActions.CompletionKeepsValid | pending_actions.py:34-55 | process_robot_completion preserves the invariant |
| PendingActions.CancelIdempotent | pending_actions.py:57-60 | cancelling twice equals cancelling once |
| PendingActions.ReplayWalksQueue | pending_actions.py:34-55 | a robot executing an action with a queue behind it, given the completion of each action in turn, gets (successor, action) for every action but the last and None for the last; afterwards nothing is pending and other robots are untouched |
| PendingActions.SequenceRunsFrontToBack | pending_actions.py:12-55 | a new non-empty sequence returns its first action; completing its actions in order walks the list front to back and ends with nothing pending |
| PendingActions.NewSequenceSupersedes | pending_actions.py:18-42 | after a new non-empty sequence, a completion report changes the state iff it names the sequence's first action, so the superseded actions can no longer be resolved |
| PendingActions.PendingActionManager.constructor | pending_actions.py:6-10 | both dictionaries start empty, satisfying the invariant |
| PendingActions.PendingActionManager.CancelRobotActions | pending_actions.py:57-60 | updates the fields to exactly Sequencer.CancelRobotActions and keeps the invariant |
| PendingActions.PendingActionManager.CreateActionSequence | pending_actions.py:12-32 | builds the queue with a loop of appends, stores it, pops its head into the executing slot; fields and result are exactly those of Sequencer.CreateActionSequence; keeps the invariant |
| PendingActions.PendingActionManager.ProcessRobotCompletion | pending_actions.py:34-55 | updates the fields and returns exactly as Sequencer.ProcessRobotCompletion; keeps the invariant |

## Left out

- Connections.RegisterClientKeepsValid: the invariant is only proved when the socket is not already paired with another robot. connections.py:35-52 does not check this, and `RegisterPairedSocketBreaksValid` shows what goes wrong without it. The route handler in ws_routes.py pairs each new client connection once.
- Connections.ConnectionRegistry.UnregisterClient: follows the corrected operation, not connections.py:59. It tests whether the socket has a reverse entry, where the code tests whether the robot id found is truthy. The two differ only for the robot id "" (`CorrectionOnlyAffectsEmptyId`). The code's behaviour there is `Registry.UnregisterClientAsWritten`.
- Connections.ConnectionRegistry.UnregisterRobot: models only the map updates. Closing the client's socket and swallowing `RuntimeError` (connections.py:29-33) is I/O. The map updates happen before that first suspension point, so they are atomic.
- The three dictionaries are module-level globals in connections.py. The model makes them the fields of one registry object. Likewise, the singleton `pending_manager` (pending_actions.py:67) is a `PendingActionManager` instance that the caller creates.
- Interleaving is not modelled. Each operation runs to completion without suspension, as under the server's cooperative scheduler.
- ws_routes.py is not part of this model. It holds the WebSocket message loops, sends, closes and disconnect handling, and it does not call the sequencer.
- gemini.py is not part of this model: language-model calls whose output is nondeterministic.
- firebase.py is not part of this model: token verification in a foreign library.
- main.py is not part of this model: HTTP and CORS wiring, and a handler that counts statuses.
- `PendingAction` (model.py:17-21) is left out. It holds an asyncio future and a float timestamp.
- `Action.to_dict` (model.py:10-15) is left out. It is JSON serialisation.
- Action parameter values are modelled as numbers (as reals) or strings. A Python dict can hold any JSON value.

## Findings

| source | as written | input that shows it | evidently intended | confidence | as-written member | corrected member |
|---|---|---|---|---|---|---|
| connections.py:58-60 | `if robot_id:` treats the robot id "" as "not paired", so only the reverse entry is removed | register_robot("", w); register_client("", c); unregister_client(c): client_connections still maps "" to c, so the robot stays "controlled" and every later register_client("", …) fails | remove the client entry whenever a robot id was found (`is not None`) | low, not executed: the routes take robot ids from URL path segments, which are never empty | Connections.UnregisterClientAsWrittenKeepsEmptyId | Connections.Registry.UnregisterClient |
