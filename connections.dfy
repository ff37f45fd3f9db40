/**
 * The connection registry of connections.py: which robot sockets are live,
 * which client socket controls each robot, and the reverse index from a
 * client socket back to the robot it controls.
 *
 * Sockets are opaque handles (the type parameter `W`); only their identity
 * is used, as Python uses the WebSocket objects as dictionary keys.
 */
module Connections {
  import opened Wrappers

  /** The status of a registered robot: "available" or "controlled". */
  datatype Status = Available | Controlled

  /**
   * A snapshot of the three module-level dictionaries:
   * `robots` is robot_connections, `clients` is client_connections and
   * `clientToRobot` is client_to_robot_mapping.
   */
  datatype Registry<W(==)> = Registry(
    robots: map<string, W>,
    clients: map<string, W>,
    clientToRobot: map<W, string>)
  {
    /**
     * The registry invariant: every controlled robot is registered, and the
     * reverse index is exactly the inverse of the client map.
     */
    ghost predicate Valid() {
      && clients.Keys <= robots.Keys
      && (forall id :: id in clients ==> clients[id] in clientToRobot && clientToRobot[clients[id]] == id)
      && (forall ws :: ws in clientToRobot ==> clientToRobot[ws] in clients && clients[clientToRobot[ws]] == ws)
    }

    /** get_robot: the robot's socket, or None when it is not connected. */
    function GetRobot(id: string): (r: Option<W>)
      ensures r.Some? <==> id in robots
      ensures r.Some? ==> r.value == robots[id]
    {
      if id in robots then Some(robots[id]) else None
    }

    /** get_client: the socket of the client controlling the robot, or None. */
    function GetClient(id: string): (r: Option<W>)
      ensures r.Some? <==> id in clients
      ensures r.Some? ==> r.value == clients[id]
    {
      if id in clients then Some(clients[id]) else None
    }

    /**
     * register_robot: refused, changing nothing, when the id already has a
     * socket; otherwise the id now yields `ws` and nothing else changes.
     */
    function RegisterRobot(id: string, ws: W): (r: (Registry<W>, bool))
      ensures r.1 <==> GetRobot(id).None?
      ensures !r.1 ==> r.0 == this
      ensures r.0.GetRobot(id) == if r.1 then Some(ws) else GetRobot(id)
      ensures forall other :: other != id ==> r.0.GetRobot(other) == GetRobot(other)
      ensures r.0.clients == clients && r.0.clientToRobot == clientToRobot
    {
      if id in robots then (this, false)
      else (this.(robots := robots[id := ws]), true)
    }

    /**
     * unregister_robot, its map updates only: the robot entry goes, and so do
     * the entry of the client controlling it and that client's reverse entry.
     * On an id that is neither connected nor controlled it changes nothing.
     */
    function UnregisterRobot(id: string): (r: Registry<W>)
      ensures r.GetRobot(id).None? && r.GetClient(id).None?
      ensures forall other :: other != id ==> r.GetRobot(other) == GetRobot(other)
      ensures forall other :: other != id ==> r.GetClient(other) == GetClient(other)
      ensures r.clientToRobot == if id in clients then clientToRobot - {clients[id]} else clientToRobot
      ensures id !in robots && id !in clients ==> r == this
    {
      var robots' := robots - {id};
      if id in clients then
        Registry(robots', clients - {id}, clientToRobot - {clients[id]})
      else
        Registry(robots', clients, clientToRobot)
    }

    /**
     * register_client: refused, changing nothing, unless the robot is
     * registered and has no client yet; on success the robot's client is
     * `ws` and `ws` maps back to the robot.
     */
    function RegisterClient(id: string, ws: W): (r: (Registry<W>, bool))
      ensures r.1 <==> IsRobotAvailable(id)
      ensures !r.1 ==> r.0 == this
      ensures r.0.GetClient(id) == if r.1 then Some(ws) else GetClient(id)
      ensures r.1 ==> r.0.clientToRobot == clientToRobot[ws := id]
      ensures forall other :: other != id ==> r.0.GetClient(other) == GetClient(other)
      ensures r.0.robots == robots
    {
      if id !in robots then (this, false)
      else if id in clients then (this, false)
      else (Registry(robots, clients[id := ws], clientToRobot[ws := id]), true)
    }

    /**
     * unregister_client exactly as connections.py:58-60 writes it: the
     * reverse entry goes, and the client entry goes only when the robot id
     * found is truthy, which the empty string is not.
     */
    function UnregisterClientAsWritten(ws: W): (r: Registry<W>)
      ensures r.clientToRobot == clientToRobot - {ws}
      ensures r.robots == robots
      ensures ws in clientToRobot && clientToRobot[ws] != "" ==> r.clients == clients - {clientToRobot[ws]}
      ensures ws in clientToRobot && clientToRobot[ws] == "" ==> r.clients == clients
      ensures ws !in clientToRobot ==> r == this
    {
      if ws in clientToRobot && clientToRobot[ws] != "" then
        Registry(robots, clients - {clientToRobot[ws]}, clientToRobot - {ws})
      else
        Registry(robots, clients, clientToRobot - {ws})
    }

    /**
     * unregister_client as intended: a paired socket loses both its reverse
     * entry and the client entry of its robot, whatever the robot id; an
     * unpaired socket changes nothing.
     */
    function UnregisterClient(ws: W): (r: Registry<W>)
      ensures r.clientToRobot == clientToRobot - {ws} && r.robots == robots
      ensures ws in clientToRobot ==> r.GetClient(clientToRobot[ws]).None?
      ensures ws in clientToRobot ==>
        forall other :: other != clientToRobot[ws] ==> r.GetClient(other) == GetClient(other)
      ensures ws !in clientToRobot ==> r == this
    {
      if ws in clientToRobot then
        Registry(robots, clients - {clientToRobot[ws]}, clientToRobot - {ws})
      else
        this
    }

    /** is_robot_available: the robot is connected and no client controls it. */
    predicate IsRobotAvailable(id: string)
      ensures IsRobotAvailable(id) <==> GetRobot(id).Some? && GetClient(id).None?
    {
      id in robots && id !in clients
    }

    /**
     * get_robot_status: "controlled" when a client is paired, "available"
     * otherwise, for an unregistered id too.
     */
    function GetRobotStatus(id: string): (r: Status)
      ensures r == Controlled <==> GetClient(id).Some?
      ensures GetRobot(id).Some? ==> (r == Available <==> IsRobotAvailable(id))
    {
      if id in clients then Controlled else Available
    }

    /** get_all_robots_status: the status of every registered robot and of nothing else. */
    function GetAllRobotsStatus(): (r: map<string, Status>)
      ensures r.Keys == robots.Keys
      ensures forall id :: id in r ==> r[id] == GetRobotStatus(id)
    {
      map id | id in robots :: GetRobotStatus(id)
    }
  }

  lemma RegisterRobotKeepsValid<W>(reg: Registry<W>, id: string, ws: W)
    requires reg.Valid()
    ensures reg.RegisterRobot(id, ws).0.Valid()
  {
  }

  lemma UnregisterRobotKeepsValid<W>(reg: Registry<W>, id: string)
    requires reg.Valid()
    ensures reg.UnregisterRobot(id).Valid()
  {
  }

  /**
   * A successful register_client keeps the invariant provided the socket is
   * not already paired with another robot. connections.py does not check
   * this; its callers register each new client connection once.
   */
  lemma RegisterClientKeepsValid<W>(reg: Registry<W>, id: string, ws: W)
    requires reg.Valid() && ws !in reg.clientToRobot
    ensures reg.RegisterClient(id, ws).0.Valid()
  {
  }

  /**
   * The proviso above is needed: pairing an already paired socket with a
   * second robot leaves the first robot's client entry pointing at a socket
   * whose reverse entry now names the second robot.
   */
  lemma RegisterPairedSocketBreaksValid<W>(reg: Registry<W>, id: string, ws: W)
    requires reg.Valid() && ws in reg.clientToRobot
    requires reg.RegisterClient(id, ws).1
    ensures !reg.RegisterClient(id, ws).0.Valid()
  {
    var first := reg.clientToRobot[ws];
    var after := reg.RegisterClient(id, ws).0;
    assert first in after.clients && after.clients[first] == ws;
    assert after.clientToRobot[ws] == id != first;
  }

  lemma UnregisterClientKeepsValid<W>(reg: Registry<W>, ws: W)
    requires reg.Valid()
    ensures reg.UnregisterClient(ws).Valid()
  {
  }

  /**
   * The empty-string robot id shows the defect of unregister_client as
   * written: after its client disconnects, the robot still reads as
   * controlled by that socket, the reverse index no longer knows the
   * socket, and no other client can ever take the robot.
   */
  lemma UnregisterClientAsWrittenKeepsEmptyId<W>(reg: Registry<W>, ws: W)
    requires reg.Valid() && reg.GetClient("") == Some(ws)
    ensures reg.UnregisterClientAsWritten(ws).GetClient("") == Some(ws)
    ensures reg.UnregisterClientAsWritten(ws).GetRobotStatus("") == Controlled
    ensures forall other: W :: !reg.UnregisterClientAsWritten(ws).RegisterClient("", other).1
    ensures !reg.UnregisterClientAsWritten(ws).Valid()
  {
  }

  /**
   * The correction changes only the empty-string case: for an unpaired
   * socket, or one paired with a non-empty robot id, the code as written
   * and the corrected operation agree.
   */
  lemma CorrectionOnlyAffectsEmptyId<W>(reg: Registry<W>, ws: W)
    requires ws !in reg.clientToRobot || reg.clientToRobot[ws] != ""
    ensures reg.UnregisterClientAsWritten(ws) == reg.UnregisterClient(ws)
  {
  }

  /** The corrected unregister_client frees the robot for a new client. */
  lemma UnregisterClientFreesRobot<W>(reg: Registry<W>, id: string, ws: W)
    requires reg.Valid() && reg.GetClient(id) == Some(ws)
    ensures reg.UnregisterClient(ws).GetRobotStatus(id) == Available
    ensures reg.UnregisterClient(ws).IsRobotAvailable(id)
  {
  }

  /** unregister_robot is idempotent. */
  lemma UnregisterRobotIdempotent<W>(reg: Registry<W>, id: string)
    ensures reg.UnregisterRobot(id).UnregisterRobot(id) == reg.UnregisterRobot(id)
  {
  }

  /**
   * The status listing agrees with the pairing: a robot is listed as
   * controlled exactly when it has a client, and as available exactly when
   * it is available for control.
   */
  lemma StatusListingAgrees<W>(reg: Registry<W>, id: string)
    requires reg.Valid()
    ensures id in reg.GetAllRobotsStatus() && reg.GetAllRobotsStatus()[id] == Controlled
            <==> reg.GetClient(id).Some?
    ensures id in reg.GetAllRobotsStatus() && reg.GetAllRobotsStatus()[id] == Available
            <==> reg.IsRobotAvailable(id)
  {
  }

  /**
   * The registry state: the three dictionaries of connections.py as fields
   * that the operations update in place.
   */
  class ConnectionRegistry<W(==)> {
    var robotConnections: map<string, W>
    var clientConnections: map<string, W>
    var clientToRobotMapping: map<W, string>

    /** The current contents of the three dictionaries; the getters and status functions read it. */
    function State(): Registry<W>
      reads this
    {
      Registry(robotConnections, clientConnections, clientToRobotMapping)
    }

    constructor ()
      ensures State() == Registry(map[], map[], map[]) && State().Valid()
    {
      robotConnections, clientConnections, clientToRobotMapping := map[], map[], map[];
    }

    method RegisterRobot(robotId: string, ws: W) returns (ok: bool)
      modifies this
      ensures (State(), ok) == old(State()).RegisterRobot(robotId, ws)
      ensures old(State()).Valid() ==> State().Valid()
    {
      ghost var before := State();
      if before.Valid() { RegisterRobotKeepsValid(before, robotId, ws); }
      if robotId in robotConnections {
        return false;
      }
      robotConnections := robotConnections[robotId := ws];
      return true;
    }

    method UnregisterRobot(robotId: string)
      modifies this
      ensures State() == old(State()).UnregisterRobot(robotId)
      ensures old(State()).Valid() ==> State().Valid()
    {
      ghost var before := State();
      if before.Valid() { UnregisterRobotKeepsValid(before, robotId); }
      robotConnections := robotConnections - {robotId};
      if robotId in clientConnections {
        var clientWs := clientConnections[robotId];
        clientConnections := clientConnections - {robotId};
        clientToRobotMapping := clientToRobotMapping - {clientWs};
      }
    }

    method RegisterClient(robotId: string, ws: W) returns (ok: bool)
      modifies this
      ensures (State(), ok) == old(State()).RegisterClient(robotId, ws)
      ensures old(State()).Valid() && ws !in old(clientToRobotMapping) ==> State().Valid()
    {
      ghost var before := State();
      if before.Valid() && ws !in before.clientToRobot { RegisterClientKeepsValid(before, robotId, ws); }
      if robotId !in robotConnections {
        return false;
      }
      if robotId in clientConnections {
        return false;
      }
      clientConnections := clientConnections[robotId := ws];
      clientToRobotMapping := clientToRobotMapping[ws := robotId];
      return true;
    }

    method UnregisterClient(clientWs: W)
      modifies this
      ensures State() == old(State()).UnregisterClient(clientWs)
      ensures old(State()).Valid() ==> State().Valid()
    {
      ghost var before := State();
      if before.Valid() { UnregisterClientKeepsValid(before, clientWs); }
      if clientWs in clientToRobotMapping {
        var robotId := clientToRobotMapping[clientWs];
        clientToRobotMapping := clientToRobotMapping - {clientWs};
        clientConnections := clientConnections - {robotId};
      }
    }
  }
}
