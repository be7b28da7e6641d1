/**
 * The value types shared by the resolver and the coordinate store: the
 * service states, the endpoints a service publishes, the status snapshot kept
 * in a claimed coordinate's status node, and the two listener event enums.
 */
module CnTypes {

  /** The lifecycle states of a service; UNASSIGNED means no status node. */
  datatype ServiceState = UNASSIGNED | STARTING | RUNNING | DRAINING | ERROR

  /** One network endpoint published by a service instance. */
  datatype Endpoint = Endpoint(
    name: string,
    host: string,
    port: int,
    protocol: string,
    endpointData: string)

  /**
   * What a status node holds once loaded: the service state, its free-text
   * message, and the endpoints in the order the snapshot lists them.
   */
  datatype Snapshot = Snapshot(state: ServiceState, message: string, endpoints: seq<Endpoint>)

  /** Events raised to the owner of a claimed coordinate. */
  datatype CoordinateEvent =
    | COORDINATE_OK
    | LOST_CONNECTION_TO_STORAGE
    | COORDINATE_VANISHED
    | COORDINATE_CORRUPTED
    | COORDINATE_OUT_OF_SYNC
    | NOT_OWNER

  /** The connection events the resolver sends to its listeners. */
  datatype ResolverEvent = CONNECTION_OK | LOST_CONNECTION
}
