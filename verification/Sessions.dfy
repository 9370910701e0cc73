/** Gateways and their sessions with the coordination service. */
module Sessions {
  /** A gateway is known by its number; `serial` tells apart the sessions it has had. */
  datatype Session = Session(gateway: nat, serial: nat)
}
