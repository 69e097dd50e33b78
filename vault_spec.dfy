/** The buffer vault as a state machine over values. Each public operation of
    the vault is one atomic step from a `State` to a `Step`: the next state,
    what the caller gets back, and the requests sent to the compositor. The
    class in module `Vault` is proved to take exactly these steps. */
module VaultSpec {
  import opened BufferTypes
  import opened ServerRequests
  import opened Ledger

  /** Everything the vault keeps:
      - `buffers`: the ledger, one entry (buffer and owner) per known id;
      - `pending`: the tickets of the withdraws waiting for a buffer, oldest first;
      - `nextTicket`: the ticket the next queued withdraw will get;
      - `requested`: allocations asked of the compositor and not yet delivered
        (their ids are not known until the compositor answers);
      - `alive`: false once the vault has been torn down;
      - `format`: the pixel format every buffer of the vault is built with. */
  datatype State = State(
    buffers: map<BufferId, Entry>,
    pending: seq<Ticket>,
    nextTicket: Ticket,
    requested: nat,
    alive: bool,
    format: PixelFormat)

  datatype Step<T> = Step(next: State, out: T, sent: seq<Request>)

  /** The vault's invariant. */
  ghost predicate Inv(s: State)
  {
    // each entry holds the buffer built for its own id, in the vault's format
    && (forall k :: k in s.buffers ==> s.buffers[k].buffer.id == k && s.buffers[k].buffer.format == s.format)
    // tickets are queued in the order they were issued, each once
    && Increasing(s.pending)
    && (forall i :: 0 <= i < |s.pending| ==> s.pending[i] < s.nextTicket)
    // nobody waits while a buffer lies idle
    && (s.pending != [] ==> FreeIds(s.buffers) == {})
    // after teardown nobody waits and nothing idle is left
    && (!s.alive ==> s.pending == [] && FreeIds(s.buffers) == {})
  }

  /** The state right after construction with `n` initial buffers. */
  function Initial(format: PixelFormat, n: nat): State
  {
    State(map[], [], 0, n, true, format)
  }

  /** The `n` allocation requests construction sends. */
  function Allocations(size: Size, format: PixelFormat, usage: int, n: nat): seq<Request>
  {
    if n == 0 then [] else Allocations(size, format, usage, n - 1) + [AllocateRequest(size, format, usage)]
  }

  lemma {:induction false} AllocationsExact(size: Size, format: PixelFormat, usage: int, n: nat)
    ensures |Allocations(size, format, usage, n)| == n
    ensures forall i :: 0 <= i < n ==> Allocations(size, format, usage, n)[i] == AllocateRequest(size, format, usage)
  {
    if n > 0 {
      AllocationsExact(size, format, usage, n - 1);
    }
  }

  lemma InitialValid(format: PixelFormat, n: nat)
    ensures Inv(Initial(format, n))
    ensures FreeIds(Initial(format, n).buffers) == {} && Initial(format, n).pending == []
  {
  }

  /** withdraw: hand out the first free buffer, or queue a ticket. */
  ghost function Withdraw(s: State): (r: Step<Withdrawal>)
    requires Inv(s) && s.alive
    ensures Inv(r.next) && r.sent == []
    ensures FreeIds(s.buffers) != {} ==>
      && r.out.Ready?
      && var k := r.out.buffer.id;
      && k in s.buffers && s.buffers[k] == Entry(r.out.buffer, Free)
      && (forall j :: j in FreeIds(s.buffers) ==> k <= j)
      && r.next == s.(buffers := s.buffers[k := Entry(r.out.buffer, CheckedOut)])
    ensures FreeIds(s.buffers) == {} ==>
      && r.out == Queued(s.nextTicket)
      && r.next == s.(pending := s.pending + [s.nextTicket], nextTicket := s.nextTicket + 1)
  {
    var idle := FreeIds(s.buffers);
    if idle != {} then
      var k := Least(idle);
      var e := s.buffers[k];
      var next := s.(buffers := s.buffers[k := e.(owner := CheckedOut)]);
      assert FreeIds(next.buffers) == idle - {k};
      Step(next, Ready(e.buffer), [])
    else
      Step(s.(pending := s.pending + [s.nextTicket], nextTicket := s.nextTicket + 1), Queued(s.nextTicket), [])
  }

  /** wire_transfer_outbound: submit a deposited buffer to the compositor. */
  ghost function Outbound(s: State, b: ClientBuffer): (r: Step<Outcome>)
    requires Inv(s) && s.alive
    ensures Inv(r.next)
    ensures r.out == Done <==> b.id in s.buffers && s.buffers[b.id] == Entry(b, InFlightToServer)
    ensures r.out == Done ==>
      r.next == s.(buffers := s.buffers[b.id := Entry(b, AtServer)]) && r.sent == [SubmitRequest(b)]
    ensures r.out != Done ==> r == Step(s, Failed(InvalidTransition), [])
  {
    if b.id in s.buffers && s.buffers[b.id] == Entry(b, InFlightToServer) then
      var next := s.(buffers := s.buffers[b.id := Entry(b, AtServer)]);
      assert FreeIds(next.buffers) == FreeIds(s.buffers);
      Step(next, Done, [SubmitRequest(b)])
    else
      Step(s, Failed(InvalidTransition), [])
  }

  /** deposit: take back a checked-out buffer and submit it. */
  ghost function Deposit(s: State, b: ClientBuffer): (r: Step<Outcome>)
    requires Inv(s) && s.alive
    ensures Inv(r.next)
    ensures r.out == Done <==> b.id in s.buffers && s.buffers[b.id] == Entry(b, CheckedOut)
    ensures r.out == Done ==>
      r.next == s.(buffers := s.buffers[b.id := Entry(b, AtServer)]) && r.sent == [SubmitRequest(b)]
    ensures r.out != Done ==> r == Step(s, Failed(UnknownBuffer), [])
  {
    if b.id in s.buffers && s.buffers[b.id] == Entry(b, CheckedOut) then
      var inFlight := s.(buffers := s.buffers[b.id := Entry(b, InFlightToServer)]);
      assert FreeIds(inFlight.buffers) == FreeIds(s.buffers);
      assert inFlight.buffers[b.id := Entry(b, AtServer)] == s.buffers[b.id := Entry(b, AtServer)];
      Outbound(inFlight, b)
    else
      Step(s, Failed(UnknownBuffer), [])
  }

  /** The owner changes an inbound delivery may make: a buffer answering an
      outstanding allocation (an id not yet in the ledger), or one coming
      back from the compositor. */
  ghost predicate Accepts(s: State, id: BufferId)
  {
    if id in s.buffers then s.buffers[id].owner == AtServer else s.requested > 0
  }

  /** wire_transfer_inbound: a buffer arrives from the compositor.
      `constructed` is whether the client buffer factory could build it. */
  ghost function Inbound(s: State, pkg: Package, constructed: bool): (r: Step<Delivery>)
    requires Inv(s)
    ensures Inv(r.next) && r.sent == []
    ensures r.next.alive == s.alive && r.next.format == s.format && r.next.nextTicket == s.nextTicket
    // only the entry of the incoming id may change
    ensures forall k :: k != pkg.id ==>
      (k in r.next.buffers <==> k in s.buffers) && (k in s.buffers ==> r.next.buffers[k] == s.buffers[k])
    ensures !s.alive ==> r == Step(s, Ignored, [])
    ensures s.alive && !Accepts(s, pkg.id) ==> r == Step(s, Rejected(InvalidTransition), [])
    ensures s.alive && Accepts(s, pkg.id) && !constructed ==>
      r.out == Rejected(ConstructionError) && pkg.id !in r.next.buffers && r.next.pending == s.pending
    // the queue loses its front exactly when a waiter is served
    ensures r.out.Fulfilled? ==> s.pending != [] && [r.out.ticket] + r.next.pending == s.pending
    ensures !r.out.Fulfilled? ==> r.next.pending == s.pending
    ensures s.alive && Accepts(s, pkg.id) && constructed && s.pending != [] ==>
      && r.out == Fulfilled(s.pending[0], ClientBuffer(pkg.id, pkg.size, s.format))
      && r.next.pending == s.pending[1..]
      && pkg.id in r.next.buffers && r.next.buffers[pkg.id] == Entry(r.out.buffer, CheckedOut)
    ensures s.alive && Accepts(s, pkg.id) && constructed && s.pending == [] ==>
      && r.out == Stored(ClientBuffer(pkg.id, pkg.size, s.format))
      && r.next.pending == []
      && pkg.id in r.next.buffers && r.next.buffers[pkg.id] == Entry(r.out.buffer, Free)
    // an allocation is answered exactly when a new id is accepted
    ensures r.next.requested == if s.alive && Accepts(s, pkg.id) && pkg.id !in s.buffers then s.requested - 1 else s.requested
  {
    if !s.alive then Step(s, Ignored, [])
    else if !Accepts(s, pkg.id) then Step(s, Rejected(InvalidTransition), [])
    else
      var requested := if pkg.id in s.buffers then s.requested else s.requested - 1;
      if !constructed then
        var next := s.(buffers := s.buffers - {pkg.id}, requested := requested);
        assert FreeIds(next.buffers) <= FreeIds(s.buffers);
        Step(next, Rejected(ConstructionError), [])
      else
        var b := ClientBuffer(pkg.id, pkg.size, s.format);
        if s.pending != [] then
          var next := s.(buffers := s.buffers[pkg.id := Entry(b, CheckedOut)], pending := s.pending[1..],
                         requested := requested);
          assert FreeIds(next.buffers) <= FreeIds(s.buffers);
          assert [s.pending[0]] + s.pending[1..] == s.pending;
          Step(next, Fulfilled(s.pending[0], b), [])
        else
          Step(s.(buffers := s.buffers[pkg.id := Entry(b, Free)], requested := requested), Stored(b), [])
  }

  /** The free requests for a sequence of ids, in the same order. */
  function FreeRequests(ids: seq<BufferId>): seq<Request>
  {
    if ids == [] then [] else [FreeRequest(ids[0])] + FreeRequests(ids[1..])
  }

  lemma {:induction false} FreeRequestsAt(ids: seq<BufferId>)
    ensures |FreeRequests(ids)| == |ids|
    ensures forall i :: 0 <= i < |ids| ==> FreeRequests(ids)[i] == FreeRequest(ids[i])
  {
    if ids != [] {
      FreeRequestsAt(ids[1..]);
    }
  }

  /** Teardown (~BufferVault): free every idle buffer, in id order, and
      cancel every pending withdraw. */
  ghost function Teardown(s: State): (r: Step<seq<Ticket>>)
    requires Inv(s) && s.alive
    ensures Inv(r.next) && !r.next.alive && r.next.pending == []
    ensures r.out == s.pending
    ensures r.sent == FreeRequests(Ascending(FreeIds(s.buffers)))
    ensures forall k :: k in r.next.buffers <==> k in s.buffers && s.buffers[k].owner != Free
    ensures forall k :: k in r.next.buffers ==> r.next.buffers[k] == s.buffers[k]
    ensures r.next.format == s.format && r.next.nextTicket == s.nextTicket && r.next.requested == s.requested
  {
    var idle := FreeIds(s.buffers);
    var next := s.(buffers := s.buffers - idle, pending := [], alive := false);
    assert FreeIds(next.buffers) == {};
    Step(next, s.pending, FreeRequests(Ascending(idle)))
  }
}
