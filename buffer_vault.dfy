/** The client-side buffer vault (class BufferVault): the ledger of every
    buffer id the compositor has handed out, with its owner, and the queue of
    withdraws waiting for a buffer. Each public method is one atomic step;
    its contract ties the new state, the result and the requests sent to the
    step of the same name in `VaultSpec`. */
module Vault {
  import opened BufferTypes
  import opened ServerRequests
  import opened Ledger
  import VaultSpec

  /** Dropping one more idle entry from the ledger. */
  lemma DropIdle(m0: map<BufferId, Entry>, removed: set<BufferId>, id: BufferId)
    requires id in FreeIds(m0 - removed)
    ensures (m0 - removed) - {id} == m0 - (removed + {id})
    ensures FreeIds((m0 - removed) - {id}) == FreeIds(m0 - removed) - {id}
  {
    var a, b := (m0 - removed) - {id}, m0 - (removed + {id});
    assert forall k :: k in a <==> k in b;
  }

  /** Freeing the least idle id first extends the log along the ascending order. */
  lemma FreeLogStep(log: seq<Request>, idle: set<BufferId>)
    requires idle != {}
    ensures log + VaultSpec.FreeRequests(Ascending(idle))
         == (log + [FreeRequest(Least(idle))]) + VaultSpec.FreeRequests(Ascending(idle - {Least(idle)}))
  {
    var least := Least(idle);
    var rest := Ascending(idle - {least});
    AscendingStep(idle);
    var ids := [least] + rest;
    assert ids[0] == least && ids[1..] == rest;
    var tail := VaultSpec.FreeRequests(rest);
    assert VaultSpec.FreeRequests(ids) == [FreeRequest(least)] + tail;
    assert log + ([FreeRequest(least)] + tail) == (log + [FreeRequest(least)]) + tail;
  }

  class BufferVault {
    const serverRequests: ServerBufferRequests
    const format: PixelFormat

    var buffers: map<BufferId, Entry>
    var pending: seq<Ticket>
    var nextTicket: Ticket
    var requested: nat
    var alive: bool

    ghost function Model(): VaultSpec.State
      reads this
    {
      VaultSpec.State(buffers, pending, nextTicket, requested, alive, format)
    }

    ghost predicate Valid()
      reads this
    {
      VaultSpec.Inv(Model())
    }

    /** Asks the compositor for `initialNbuffers` buffers of the vault's
        geometry; none is known, checked out or waited for yet. */
    constructor (serverRequests: ServerBufferRequests, size: Size, format: PixelFormat, usage: int,
                 initialNbuffers: nat)
      modifies serverRequests
      ensures this.serverRequests == serverRequests && this.format == format
      ensures Valid() && Model() == VaultSpec.Initial(format, initialNbuffers)
      ensures serverRequests.log == old(serverRequests.log) + VaultSpec.Allocations(size, format, usage, initialNbuffers)
    {
      this.serverRequests := serverRequests;
      this.format := format;
      buffers := map[];
      pending := [];
      nextTicket := 0;
      requested := initialNbuffers;
      alive := true;
      new;
      var i := 0;
      while i < initialNbuffers
        invariant 0 <= i <= initialNbuffers
        invariant Model() == VaultSpec.Initial(format, initialNbuffers)
        invariant serverRequests.log == old(serverRequests.log) + VaultSpec.Allocations(size, format, usage, i)
      {
        serverRequests.AllocateBuffer(size, format, usage);
        i := i + 1;
      }
    }

    /** Hands out the first free buffer, or queues a ticket for the next one. */
    method Withdraw() returns (w: Withdrawal)
      requires Valid() && alive
      modifies this
      ensures Valid()
      ensures Model() == VaultSpec.Withdraw(old(Model())).next && w == VaultSpec.Withdraw(old(Model())).out
    {
      var idle := FindFree(buffers);
      if idle.Some? {
        var e := buffers[idle.value];
        buffers := buffers[idle.value := e.(owner := CheckedOut)];
        w := Ready(e.buffer);
      } else {
        w := Queued(nextTicket);
        pending := pending + [nextTicket];
        nextTicket := nextTicket + 1;
      }
    }

    /** Takes back a buffer the caller holds and submits it to the compositor. */
    method Deposit(buffer: ClientBuffer) returns (o: Outcome)
      requires Valid() && alive
      modifies this, serverRequests
      ensures Valid()
      ensures var r := VaultSpec.Deposit(old(Model()), buffer);
        Model() == r.next && o == r.out && serverRequests.log == old(serverRequests.log) + r.sent
    {
      if buffer.id in buffers && buffers[buffer.id] == Entry(buffer, CheckedOut) {
        buffers := buffers[buffer.id := Entry(buffer, InFlightToServer)];
        assert FreeIds(buffers) == FreeIds(old(buffers));
        o := WireTransferOutbound(buffer);
        assert buffers == old(buffers)[buffer.id := Entry(buffer, AtServer)];
      } else {
        o := Failed(UnknownBuffer);
      }
    }

    /** Sends a deposited buffer to the compositor. */
    method WireTransferOutbound(buffer: ClientBuffer) returns (o: Outcome)
      requires Valid() && alive
      modifies this, serverRequests
      ensures Valid()
      ensures var r := VaultSpec.Outbound(old(Model()), buffer);
        Model() == r.next && o == r.out && serverRequests.log == old(serverRequests.log) + r.sent
    {
      if buffer.id in buffers && buffers[buffer.id] == Entry(buffer, InFlightToServer) {
        buffers := buffers[buffer.id := Entry(buffer, AtServer)];
        serverRequests.SubmitBuffer(buffer);
        o := Done;
      } else {
        o := Failed(InvalidTransition);
      }
    }

    /** Records a buffer arriving from the compositor; `constructed` is
        whether the client buffer factory could build its local
        representation. */
    method WireTransferInbound(pkg: Package, constructed: bool) returns (d: Delivery)
      requires Valid()
      modifies this
      ensures Valid()
      ensures var r := VaultSpec.Inbound(old(Model()), pkg, constructed); Model() == r.next && d == r.out
    {
      ghost var r := VaultSpec.Inbound(Model(), pkg, constructed);
      if !alive {
        return Ignored;
      }
      var known := pkg.id in buffers;
      if (known && buffers[pkg.id].owner != AtServer) || (!known && requested == 0) {
        return Rejected(InvalidTransition);
      }
      if !known {
        requested := requested - 1;
      }
      if !constructed {
        buffers := buffers - {pkg.id};
        return Rejected(ConstructionError);
      }
      var buffer := ClientBuffer(pkg.id, pkg.size, format);
      if pending != [] {
        var ticket := pending[0];
        pending := pending[1..];
        buffers := buffers[pkg.id := Entry(buffer, CheckedOut)];
        d := Fulfilled(ticket, buffer);
      } else {
        buffers := buffers[pkg.id := Entry(buffer, Free)];
        d := Stored(buffer);
      }
    }

    /** Teardown (~BufferVault): frees every idle buffer in id order, drops it
        from the ledger and cancels every pending withdraw. */
    method Destroy() returns (cancelled: seq<Ticket>)
      requires Valid() && alive
      modifies this, serverRequests
      ensures Valid()
      ensures var r := VaultSpec.Teardown(old(Model()));
        Model() == r.next && cancelled == r.out && serverRequests.log == old(serverRequests.log) + r.sent
    {
      FreeIdleBuffers();
      cancelled := pending;
      pending := [];
      alive := false;
    }

    /** The walk over the ordered ledger that frees and drops each idle entry. */
    method FreeIdleBuffers()
      modifies this`buffers, serverRequests
      ensures buffers == old(buffers) - FreeIds(old(buffers))
      ensures serverRequests.log == old(serverRequests.log) + VaultSpec.FreeRequests(Ascending(FreeIds(old(buffers))))
    {
      ghost var idle0 := FreeIds(buffers);
      ghost var buffers0 := buffers;
      ghost var removed: set<BufferId> := {};
      var idle := FindFree(buffers);
      while idle.Some?
        invariant removed <= idle0
        invariant buffers == buffers0 - removed
        invariant FreeIds(buffers) == idle0 - removed
        invariant old(serverRequests.log) + VaultSpec.FreeRequests(Ascending(idle0))
               == serverRequests.log + VaultSpec.FreeRequests(Ascending(idle0 - removed))
        invariant idle.None? <==> idle0 - removed == {}
        invariant idle.Some? ==> idle.value == Least(idle0 - removed)
        decreases |idle0 - removed|
      {
        var id := idle.value;
        DropIdle(buffers0, removed, id);
        FreeLogStep(serverRequests.log, idle0 - removed);
        assert idle0 - removed - {id} == idle0 - (removed + {id});
        serverRequests.FreeBuffer(id);
        buffers := buffers - {id};
        removed := removed + {id};
        idle := FindFree(buffers);
      }
      assert removed == idle0;
    }
  }
}
