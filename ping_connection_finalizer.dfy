/**
 * `DoctrinePingConnectionFinalizer`: after an activity, look the entity
 * manager up, ping its connection with the platform's dummy select,
 * reconnect when the ping fails, and reset the manager when it is closed.
 */
module PingConnectionFinalizer {
  import opened Wrappers
  import opened Effects

  /** What the registry's `getManager($name)` hands back. */
  datatype Manager = EntityManager | OtherObjectManager

  /** What the collaborators do during one `finalize()`; Doctrine itself is not part of this model. */
  datatype World = World(
    lookup: Outcome<Manager>,        // managerRegistry->getManager($name)
    ping: Option<Failure>,           // connection->executeQuery(dummy select) throws?
    connect: Option<Failure>,        // connection->connect() throws?
    open: bool)                      // entityManager->isOpen()

  datatype Call =
    | GetManager(name: string)
    | GetConnection
    | Ping
    | Close
    | Connect
    | IsOpen
    | ResetManager(name: string)

  /** The lookup found an entity manager, so the connection is checked. */
  predicate Reaches(w: World) {
    w.lookup == Returned(EntityManager)
  }

  /** The ping failed with a DBAL exception, which is caught. */
  predicate Reconnects(w: World) {
    Reaches(w) && w.ping.Some? && IsDbal(w.ping.value)
  }

  /** Control gets past the ping (and the reconnect) to the `isOpen` test. */
  predicate ChecksOpen(w: World) {
    Reaches(w) && (w.ping.None? || (Reconnects(w) && w.connect.None?))
  }

  class DoctrinePingConnectionFinalizer {
    const entityManagerName: string

    constructor (entityManagerName: string)
      ensures this.entityManagerName == entityManagerName
    {
      this.entityManagerName := entityManagerName;
    }

    /**
     * `finalize()`: a missing manager (InvalidArgumentException) or one that
     * is not an entity manager ends it quietly; a failing ping closes and
     * reconnects; a closed manager is reset. Other exceptions propagate.
     */
    method Finalize(w: World) returns (calls: seq<Call>, thrown: Option<Failure>)
      ensures |calls| > 0 && calls[0] == GetManager(entityManagerName)
      ensures !Reaches(w) ==> calls == [GetManager(entityManagerName)]
      ensures !Reaches(w) ==> (thrown.Some? <==> w.lookup.Threw? && w.lookup.failure.kind != InvalidArgument)
      ensures Reaches(w) ==> |calls| >= 3 && calls[1] == GetConnection && calls[2] == Ping
      ensures (Close in calls <==> Reconnects(w)) && (Connect in calls <==> Reconnects(w))
      ensures ResetManager(entityManagerName) in calls <==> ChecksOpen(w) && !w.open
      ensures ChecksOpen(w) ==> thrown == None
      ensures Reaches(w) && w.ping.Some? && !IsDbal(w.ping.value) ==>
        calls == [GetManager(entityManagerName), GetConnection, Ping] && thrown == w.ping
      ensures Reconnects(w) && w.connect.Some? ==>
        calls == [GetManager(entityManagerName), GetConnection, Ping, Close, Connect] && thrown == w.connect
      ensures ChecksOpen(w) ==>
        calls == [GetManager(entityManagerName), GetConnection, Ping]
          + (if Reconnects(w) then [Close, Connect] else [])
          + [IsOpen]
          + (if w.open then [] else [ResetManager(entityManagerName)])
      ensures thrown.Some? ==>
        || (w.lookup.Threw? && thrown.value == w.lookup.failure)
        || (Reaches(w) && thrown == w.ping && !IsDbal(w.ping.value))
        || (Reconnects(w) && thrown == w.connect)
    {
      calls := [GetManager(entityManagerName)];
      match w.lookup {
        case Threw(e) =>
          if e.kind == InvalidArgument {
            return calls, None;
          }
          return calls, Some(e);
        case Returned(manager) =>
          if manager != EntityManager {
            return calls, None;
          }
      }
      calls := calls + [GetConnection, Ping];
      if w.ping.Some? {
        if !IsDbal(w.ping.value) {
          return calls, w.ping;
        }
        calls := calls + [Close, Connect];
        if w.connect.Some? {
          return calls, w.connect;
        }
      }
      calls := calls + [IsOpen];
      if !w.open {
        calls := calls + [ResetManager(entityManagerName)];
      }
      thrown := None;
    }
  }
}
