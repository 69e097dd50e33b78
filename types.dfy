/** Values exchanged by the client-side buffer vault: buffer identities, the
    geometry a buffer is allocated with, the owner of a ledger entry and the
    outcomes of the vault's operations. */
module BufferTypes {

  datatype Option<T> = None | Some(value: T)

  /** Width and height of a buffer, as geometry::Size. */
  datatype Size = Size(width: int, height: int)

  /** A MirPixelFormat value, kept as its enumeration code. */
  datatype PixelFormat = PixelFormat(code: int)

  /** Buffer ids are assigned by the compositor. */
  type BufferId = int

  /** A pending withdraw (a promise in the source) is identified by a ticket. */
  type Ticket = nat

  /** The local representation of a buffer that the client buffer factory
      builds from a package: it remembers the id it was built for and the
      geometry it was built with. */
  datatype ClientBuffer = ClientBuffer(id: BufferId, size: Size, format: PixelFormat)

  /** What arrives from the compositor for one buffer: its id and its size. */
  datatype Package = Package(id: BufferId, size: Size)

  /** Who holds a buffer the vault knows about. */
  datatype Owner =
    | Free              // idle in the vault, ready to be withdrawn
    | CheckedOut        // handed to the rendering caller
    | InFlightToServer  // deposited, submission to the compositor under way
    | AtServer          // submitted; the compositor holds it

  datatype Entry = Entry(buffer: ClientBuffer, owner: Owner)

  datatype Error =
    | UnknownBuffer      // deposit of a buffer the caller does not hold
    | InvalidTransition  // an owner change the protocol does not have
    | ConstructionError  // the factory could not build the local buffer

  /** The future returned by withdraw: ready now, or queued under a ticket. */
  datatype Withdrawal = Ready(buffer: ClientBuffer) | Queued(ticket: Ticket)

  /** What an inbound delivery did. */
  datatype Delivery =
    | Fulfilled(ticket: Ticket, buffer: ClientBuffer)  // handed to the oldest waiter
    | Stored(buffer: ClientBuffer)                     // now free in the vault
    | Rejected(error: Error)
    | Ignored                                          // the vault was torn down

  datatype Outcome = Done | Failed(error: Error)
}
