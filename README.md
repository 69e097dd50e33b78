# Buffer vault of the client runtime, modelled in Dafny

The client-side buffer vault (`mir::client::BufferVault`) keeps the ledger of
every buffer id the compositor has handed to a rendering client, with the one
party that owns each buffer: the vault itself (idle, `Free`), the rendering
caller (`CheckedOut`), the submission path (`InFlightToServer`) or the
compositor (`AtServer`). It also keeps the queue of `withdraw` calls that wait
for a buffer. All its requests to the compositor go through the
`ServerBufferRequests` sink: allocate, free and submit.

The project has six modules:

- `BufferTypes` (`types.dfy`): ids, sizes, pixel formats, client buffers,
  inbound packages, owners, ledger entries, errors and operation outcomes.
- `ServerRequests` (`server_requests.dfy`): the sink as a class that records
  each request it is given, in order.
- `Ledger` (`ledger.dfy`): the set of idle ids, and the search for the first
  idle entry of the ordered map (`std::map` visits ids in ascending order).
  The search is written as a loop.
- `VaultSpec` (`vault_spec.dfy`): the vault as a state machine over values.
  Each operation is a function from a state to the next state, the caller's
  result and the requests sent. Their contracts state each operation's
  cases, and that the vault invariant `Inv` is preserved.
- `VaultProperties` (`vault_properties.dfy`): any sequence of calls as a run,
  with lemmas about such runs. They cover FIFO service of waiting withdraws,
  the withdraw/deposit/return round trip, teardown, single ownership, and
  one worked sequence of calls.
- `Vault` (`buffer_vault.dfy`): class `BufferVault`. Three of its fields
  stand for the source's: the `buffers` map, the queue of pending tickets
  (the `promises` deque) and the constant pixel format. Three are additions
  of the model: `nextTicket` gives each waiting withdraw an identity,
  `requested` counts allocations not yet answered (the `Requested` owner),
  and `alive` is the liveness flag that makes late deliveries no-ops. The constructor loops to issue the initial allocations, and
  teardown walks the ledger to free idle buffers. Every method is proved to
  take exactly the step that `VaultSpec` defines.

How the model reads the source:

- A `std::promise` parked by `withdraw` is a ticket. `withdraw` returns
  `Ready(buffer)` or `Queued(ticket)`. An inbound delivery that serves a
  waiter returns `Fulfilled(ticket, buffer)`. Teardown returns the tickets it
  cancels, in queue order.
- Buffer ids are assigned by the compositor. An allocation that has not been
  answered yet therefore has no id and no ledger entry. Such "requested"
  buffers are the counter `requested`. An inbound delivery for an id not in
  the ledger is the answer to one of them. It is accepted only while
  `requested > 0`. A returning id is accepted only when its owner is
  `AtServer`. Every other delivery is an `InvalidTransition` and changes
  nothing.
- `deposit` moves a `CheckedOut` buffer to `InFlightToServer`. It then calls
  `wire_transfer_outbound`, which records one submit request and moves the
  buffer to `AtServer`. Depositing a buffer the caller does not hold is
  rejected with `UnknownBuffer`, and the state is unchanged.
- The client buffer factory is a parameter: `constructed` says whether it
  could build the local buffer. The buffer it builds is
  `ClientBuffer(id, size, format)`, so two ids never share a buffer. When
  it fails, the id is dropped from the ledger (`ConstructionError`).
- `withdraw` hands out the idle entry with the least id. This is the first
  one a search from the start of the ordered map finds.
- The destructor frees every idle buffer, in ascending id order, and removes
  it from the ledger. It cancels every pending withdraw and marks the vault
  dead. A delivery after that is ignored. Buffers held by the caller or the
  compositor are not freed. Nor is a buffer whose allocation is still
  outstanding at teardown: when it arrives it is ignored, so teardown is not
  a full release of the compositor's buffers.

## Model

| member | source | states |
|---|---|---|
| `ServerRequests.ServerBufferRequests.AllocateBuffer` | src/client/buffer_vault.h:38 | an allocation request with the given size, format and usage is recorded, after all earlier requests |
| `ServerRequests.ServerBufferRequests.FreeBuffer` | src/client/buffer_vault.h:39 | a free request for the id is recorded, after all earlier requests |
| `ServerRequests.ServerBufferRequests.SubmitBuffer` | src/client/buffer_vault.h:40 | a submit request for the buffer is recorded, after all earlier requests |
| `Vault.BufferVault.constructor` | src/client/buffer_vault.h:53-57 | the vault keeps the given sink and format. It sends exactly `initialNbuffers` allocation requests of its size, format and usage. Its ledger is empty, nobody waits, and all allocations are outstanding |
| `VaultSpec.AllocationsExact` | src/client/buffer_vault.h:53-57 | construction sends exactly n requests, and each one is an allocation with the vault's size, format and usage |
| `VaultSpec.InitialValid` | src/client/buffer_vault.h:53-57 | the freshly constructed vault satisfies the invariant, with nothing idle and nothing pending |
| `Ledger.FindFree` | src/client/buffer_vault.h:79 | the search of the ordered map finds an idle entry exactly when one exists, and it finds the one with the least id |
| `Ledger.AscendingEnumerates` | src/client/buffer_vault.h:79 | ascending id order lists every id of the set exactly once, in increasing order |
| `VaultSpec.Withdraw` | src/client/buffer_vault.h:60 | if an idle entry exists, the one with the least id becomes checked out, its buffer is returned ready, and nothing else changes. Otherwise a fresh ticket is appended to the back of the queue and the ledger is unchanged. No request is sent, and the invariant is kept |
| `Vault.BufferVault.Withdraw` | src/client/buffer_vault.h:60 | the method changes the state and returns the outcome exactly as `VaultSpec.Withdraw` |
| `VaultSpec.Deposit` | src/client/buffer_vault.h:61 | succeeds exactly when the caller holds the buffer (it is `CheckedOut`). Then only that entry changes, to `AtServer`, and exactly one submit request for it is sent. Otherwise it fails with `UnknownBuffer`, changes nothing and sends nothing |
| `Vault.BufferVault.Deposit` | src/client/buffer_vault.h:61 | the method changes the state, returns the outcome and sends its requests exactly as `VaultSpec.Deposit`; it goes through `WireTransferOutbound` |
| `VaultSpec.Outbound` | src/client/buffer_vault.h:63 | succeeds exactly when the buffer is `InFlightToServer`. Then only that entry changes, to `AtServer`, and exactly one submit request is sent. Otherwise it fails with `InvalidTransition` and nothing changes |
| `Vault.BufferVault.WireTransferOutbound` | src/client/buffer_vault.h:63 | the method changes the state, returns the outcome and sends its requests exactly as `VaultSpec.Outbound` |
| `VaultSpec.Inbound` | src/client/buffer_vault.h:62 | changes only the incoming id's entry and sends nothing. On a torn-down vault it is ignored. A delivery that is neither an outstanding allocation nor a return from the compositor is rejected and changes nothing. A failed construction drops the id. Otherwise, with waiters, the oldest ticket is fulfilled, removed from the front, and gets the entry checked out. Without waiters the entry becomes free. An outstanding allocation is used up exactly when a new id is accepted |
| `Vault.BufferVault.WireTransferInbound` | src/client/buffer_vault.h:62 | the method changes the state and returns the outcome exactly as `VaultSpec.Inbound` |
| `VaultSpec.Teardown` | src/client/buffer_vault.h:58 | afterwards the vault is dead and nobody waits, and every pending ticket is returned as cancelled, in order. Free requests are sent for the idle ids in ascending order. Exactly the non-idle entries remain, unchanged |
| `Vault.BufferVault.Destroy` | src/client/buffer_vault.h:58 | the destructor changes the state, returns the cancelled tickets and sends its requests exactly as `VaultSpec.Teardown` |
| `Vault.BufferVault.FreeIdleBuffers` | src/client/buffer_vault.h:58 | the walk over the ordered ledger removes exactly the idle entries and sends one free request for each, in ascending id order |
| `VaultProperties.TeardownFreesIdle` | src/client/buffer_vault.h:58 | teardown frees each idle buffer exactly once, in increasing id order, and frees no buffer held by the caller or the compositor. Any later delivery is ignored and changes nothing |
| `VaultProperties.Apply` | src/client/buffer_vault.h:58-63 | each public call, taken as one atomic step, keeps the invariant and the pixel format. The ticket counter never decreases, and a call that queues a withdraw gives it exactly the next fresh ticket, so no ticket number is reused |
| `VaultProperties.Run` | src/client/buffer_vault.h:58-63 | any sequence of calls keeps the invariant and the pixel format |
| `VaultProperties.ApplyKeepsQueue` | src/client/buffer_vault.h:80 | for every call, the tickets it settles followed by the new queue equal the old queue followed by the ticket it issues. An issued ticket is the next fresh number |
| `VaultProperties.RunConservesQueue` | src/client/buffer_vault.h:80 | over any run, the tickets settled (fulfilled or cancelled) followed by those still waiting equal the tickets waiting at the start followed by those queued during the run |
| `VaultProperties.RunIssuesFresh` | src/client/buffer_vault.h:80 | the tickets queued during a run are increasing and were never issued before |
| `VaultProperties.FifoService` | src/client/buffer_vault.h:80 | over any run, waiting withdraws are settled in the order they were queued: the settled tickets are a prefix of the queue. They are increasing, so no request is settled twice |
| `VaultProperties.RoundTrip` | src/client/buffer_vault.h:60-62 | a buffer withdrawn, deposited (sending one submit) and returned by the compositor with the same size leaves the vault in exactly its previous state. The next withdraw hands out the same buffer again |
| `VaultProperties.SingleOwner` | src/client/buffer_vault.h:71-79 | distinct ids of the ledger never share a buffer |
| `VaultProperties.DirectOutboundRejected` | src/client/buffer_vault.h:63 | on a state with no entry in flight, a direct outbound call is rejected with `InvalidTransition` and changes nothing |
| `VaultProperties.Scenario` | src/client/buffer_vault.h:53-63 | construction sends two allocation requests of the vault's size, format and usage, and two withdraws each wait. The deliveries of ids 1 and 2 serve tickets 0 and 1 in order. Depositing buffer 1 sends one submit for it |

## Left out

- The `std::mutex` (src/client/buffer_vault.h:78) and the interleaving of the render and I/O threads. Each public method is one atomic step.
- Fulfilling promises after the lock is released: this is a reentrancy concern with no sequential meaning.
- `std::future`/`std::promise` mechanics: replaced by tickets and explicit `Fulfilled`/cancelled outcomes.
- `ClientBufferFactory` and the decoding of `protobuf::Buffer` (foreign code with no bodies). The package is its id and size. The factory's success is the `constructed` parameter. Its retry policy after a failure is not modelled: the id is simply dropped.
- Resize and stale-geometry retirement: the header marks them as a TODO (src/client/buffer_vault.h:64) and stores no size, so no target geometry exists to compare against.
- src/client/buffer_vault.cpp is not part of this model. Where the header does not fix a behaviour, the model makes these choices: which idle entry `withdraw` picks (the least id, following the ordered map), the final owner after deposit (`AtServer`, since `wire_transfer_outbound` hands the buffer over), and the protocol owner checks on inbound deliveries. Because of the second choice, `InFlightToServer` exists only inside `deposit`: no other operation puts an entry in flight, so a direct call of the public `wire_transfer_outbound` (src/client/buffer_vault.h:63) is rejected on any state without one (`DirectOutboundRejected`).
- Buffer identity by `shared_ptr`: buffers are compared as values (id, size, format), which coincides with identity because each id has one buffer.
- Calls on a destroyed vault other than inbound deliveries: the source's callers may not make them, so methods other than `WireTransferInbound` require a live vault, and runs stop at the first such call.
- The sink's copy protection and virtual destructor (src/client/buffer_vault.h:41-45): they have no behaviour.
