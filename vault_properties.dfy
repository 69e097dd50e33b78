/** Properties of the vault's state machine that relate several steps: FIFO
    service of pending withdraws over any sequence of calls, the
    withdraw/deposit/return round trip, teardown, and the single-owner
    ledger. */
module VaultProperties {
  import opened BufferTypes
  import opened ServerRequests
  import opened Ledger
  import opened VaultSpec

  /** A call on the vault's public interface. */
  datatype Call =
    | CallWithdraw
    | CallDeposit(buffer: ClientBuffer)
    | CallOutbound(buffer: ClientBuffer)
    | CallInbound(pkg: Package, constructed: bool)
    | CallTeardown

  datatype Reply =
    | Withdrew(withdrawal: Withdrawal)
    | Deposited(outcome: Outcome)
    | Transferred(outcome: Outcome)
    | Delivered(delivery: Delivery)
    | TornDown(cancelled: seq<Ticket>)

  /** Only inbound deliveries may reach a vault that has been torn down;
      every other call needs a live object. */
  predicate Admissible(s: State, c: Call)
  {
    s.alive || c.CallInbound?
  }

  /** The tickets a reply settles: the one an inbound buffer fulfils, or
      those teardown cancels. */
  function SettledBy(r: Reply): seq<Ticket>
  {
    match r
    case Delivered(Fulfilled(t, _)) => [t]
    case TornDown(cancelled) => cancelled
    case _ => []
  }

  /** The ticket a reply queues. */
  function IssuedBy(r: Reply): seq<Ticket>
  {
    match r
    case Withdrew(Queued(t)) => [t]
    case _ => []
  }

  function Settled(rs: seq<Reply>): seq<Ticket>
  {
    if rs == [] then [] else SettledBy(rs[0]) + Settled(rs[1..])
  }

  function Issued(rs: seq<Reply>): seq<Ticket>
  {
    if rs == [] then [] else IssuedBy(rs[0]) + Issued(rs[1..])
  }

  /** One call as one atomic step. */
  ghost function Apply(s: State, c: Call): (r: Step<Reply>)
    requires Inv(s) && Admissible(s, c)
    ensures Inv(r.next) && r.next.format == s.format && r.next.nextTicket >= s.nextTicket
    // a queued withdraw gets the next fresh ticket
    ensures IssuedBy(r.out) != [] ==> IssuedBy(r.out) == [s.nextTicket] && r.next.nextTicket == s.nextTicket + 1
  {
    match c
    case CallWithdraw =>
      var w := Withdraw(s); Step(w.next, Withdrew(w.out), w.sent)
    case CallDeposit(b) =>
      var d := Deposit(s, b); Step(d.next, Deposited(d.out), d.sent)
    case CallOutbound(b) =>
      var o := Outbound(s, b); Step(o.next, Transferred(o.out), o.sent)
    case CallInbound(pkg, ok) =>
      var i := Inbound(s, pkg, ok); Step(i.next, Delivered(i.out), i.sent)
    case CallTeardown =>
      var t := Teardown(s); Step(t.next, TornDown(t.out), t.sent)
  }

  /** Each call only appends to the back of the queue of pending withdraws,
      with a fresh ticket, or settles tickets from its front. */
  lemma ApplyKeepsQueue(s: State, c: Call)
    requires Inv(s) && Admissible(s, c)
    ensures var r := Apply(s, c);
      && SettledBy(r.out) + r.next.pending == s.pending + IssuedBy(r.out)
      && (IssuedBy(r.out) == [] ==> r.next.nextTicket == s.nextTicket)
  {
    match c
    case CallWithdraw =>
    case CallDeposit(b) =>
    case CallOutbound(b) =>
    case CallInbound(pkg, ok) =>
    case CallTeardown =>
  }

  datatype Trace = Trace(final: State, replies: seq<Reply>, sent: seq<Request>)

  /** A sequence of calls, up to the first one the vault's callers may not make. */
  ghost function Run(s: State, calls: seq<Call>): (t: Trace)
    requires Inv(s)
    ensures Inv(t.final) && t.final.format == s.format && t.final.nextTicket >= s.nextTicket
    decreases |calls|
  {
    if calls == [] || !Admissible(s, calls[0]) then Trace(s, [], [])
    else
      var st := Apply(s, calls[0]);
      var rest := Run(st.next, calls[1..]);
      Trace(rest.final, [st.out] + rest.replies, st.sent + rest.sent)
  }

  /** Tickets queued during a run are fresh and increasing. */
  lemma {:induction false} RunIssuesFresh(s: State, calls: seq<Call>)
    requires Inv(s)
    ensures var t := Run(s, calls);
      && Increasing(Issued(t.replies))
      && (forall i :: 0 <= i < |Issued(t.replies)| ==> s.nextTicket <= Issued(t.replies)[i] < t.final.nextTicket)
    decreases |calls|
  {
    if calls != [] && Admissible(s, calls[0]) {
      var st := Apply(s, calls[0]);
      var rest := Run(st.next, calls[1..]);
      RunIssuesFresh(st.next, calls[1..]);
      ApplyKeepsQueue(s, calls[0]);
      var rs := [st.out] + rest.replies;
      assert Run(s, calls) == Trace(rest.final, rs, st.sent + rest.sent);
      assert rs[1..] == rest.replies;
      assert Issued(rs) == IssuedBy(st.out) + Issued(rest.replies);
      IssuedStep(IssuedBy(st.out), Issued(rest.replies), s.nextTicket, st.next.nextTicket, rest.final.nextTicket);
    }
  }

  /** The tickets of one step followed by those of the rest of a run. */
  lemma IssuedStep(first: seq<int>, later: seq<int>, start: int, middle: int, end: int)
    requires first == [] ==> middle == start
    requires first != [] ==> first == [start] && middle == start + 1
    requires Increasing(later)
    requires forall i :: 0 <= i < |later| ==> middle <= later[i] < end
    requires start <= middle <= end
    ensures Increasing(first + later)
    ensures forall i :: 0 <= i < |first + later| ==> start <= (first + later)[i] < end
  {
    if first != [] {
      IncreasingConcat(first, later, middle);
    } else {
      assert first + later == later;
    }
    BoundsConcat(first, later, start, end);
  }

  lemma BoundsConcat(a: seq<int>, b: seq<int>, lo: int, hi: int)
    requires forall i :: 0 <= i < |a| ==> lo <= a[i] < hi
    requires forall i :: 0 <= i < |b| ==> lo <= b[i] < hi
    ensures forall i :: 0 <= i < |a + b| ==> lo <= (a + b)[i] < hi
  {
    forall i | 0 <= i < |a + b| ensures lo <= (a + b)[i] < hi {
      if i >= |a| {
        assert (a + b)[i] == b[i - |a|];
      }
    }
  }

  /** Pending withdraws form one queue: across any run, the tickets settled
      (fulfilled or cancelled) followed by those still pending are exactly
      the tickets pending at the start followed by those queued during the
      run. */
  lemma {:induction false} RunConservesQueue(s: State, calls: seq<Call>)
    requires Inv(s)
    ensures var t := Run(s, calls);
      Settled(t.replies) + t.final.pending == s.pending + Issued(t.replies)
    decreases |calls|
  {
    if calls != [] && Admissible(s, calls[0]) {
      var st := Apply(s, calls[0]);
      var rest := Run(st.next, calls[1..]);
      RunConservesQueue(st.next, calls[1..]);
      ApplyKeepsQueue(s, calls[0]);
      var rs := [st.out] + rest.replies;
      assert Run(s, calls) == Trace(rest.final, rs, st.sent + rest.sent);
      assert rs[1..] == rest.replies;
      assert Settled(rs) == SettledBy(st.out) + Settled(rest.replies);
      assert Issued(rs) == IssuedBy(st.out) + Issued(rest.replies);
      QueueSplice(SettledBy(st.out), Settled(rest.replies), rest.final.pending, st.next.pending,
                  s.pending, IssuedBy(st.out), Issued(rest.replies));
    }
  }

  /** Splicing one step's queue equation onto the rest of a run's. */
  lemma QueueSplice<T>(settled: seq<T>, settledLater: seq<T>, final: seq<T>, middle: seq<T>,
                       initial: seq<T>, issued: seq<T>, issuedLater: seq<T>)
    requires settledLater + final == middle + issuedLater
    requires settled + middle == initial + issued
    ensures (settled + settledLater) + final == initial + (issued + issuedLater)
  {
    calc {
      (settled + settledLater) + final;
      settled + (settledLater + final);
      settled + (middle + issuedLater);
      (settled + middle) + issuedLater;
      (initial + issued) + issuedLater;
    }
  }

  lemma IncreasingConcat(a: seq<int>, b: seq<int>, bound: int)
    requires Increasing(a) && Increasing(b)
    requires forall i :: 0 <= i < |a| ==> a[i] < bound
    requires forall i :: 0 <= i < |b| ==> bound <= b[i]
    ensures Increasing(a + b)
  {
    forall i, j | 0 <= i < j < |a + b| ensures (a + b)[i] < (a + b)[j] {
      if j < |a| {
      } else if i < |a| {
        assert (a + b)[i] == a[i] && (a + b)[j] == b[j - |a|];
      } else {
        assert (a + b)[i] == b[i - |a|] && (a + b)[j] == b[j - |a|];
      }
    }
  }

  /** FIFO service: across any run, pending withdraws are settled in the order
      they were queued, each at most once, and none is skipped: the settled
      tickets are a prefix of the queue. */
  lemma FifoService(s: State, calls: seq<Call>)
    requires Inv(s)
    ensures var t := Run(s, calls);
      && Settled(t.replies) <= s.pending + Issued(t.replies)
      && Increasing(Settled(t.replies))
  {
    var t := Run(s, calls);
    RunConservesQueue(s, calls);
    RunIssuesFresh(s, calls);
    var queue := s.pending + Issued(t.replies);
    IncreasingConcat(s.pending, Issued(t.replies), s.nextTicket);
    var settled := Settled(t.replies);
    assert settled == queue[..|settled|];
    assert forall i, j :: 0 <= i < j < |settled| ==> settled[i] == queue[i] && settled[j] == queue[j];
  }

  /** A buffer withdrawn, deposited and sent back by the compositor with the
      same geometry leaves the vault as it was: the same buffer is free again
      and the next withdraw hands it out again. */
  lemma RoundTrip(s: State)
    requires Inv(s) && s.alive && FreeIds(s.buffers) != {}
    ensures var w := Withdraw(s);
      && w.out.Ready?
      && var b := w.out.buffer;
      && var d := Deposit(w.next, b);
      && d.out == Done && d.sent == [SubmitRequest(b)]
      && d.next.buffers[b.id].owner == AtServer
      && var i := Inbound(d.next, Package(b.id, b.size), true);
      && i.out == Stored(b)
      && i.next == s
      && Withdraw(i.next) == w
  {
    var w := Withdraw(s);
    var b := w.out.buffer;
    var d := Deposit(w.next, b);
    assert s.pending == [];
    var i := Inbound(d.next, Package(b.id, b.size), true);
    assert i.next.buffers == s.buffers;
  }

  /** Teardown frees every idle buffer exactly once, in id order, and nothing
      a caller or the compositor holds; after it every delivery is ignored. */
  lemma TeardownFreesIdle(s: State, pkg: Package, constructed: bool)
    requires Inv(s) && s.alive
    ensures var t := Teardown(s);
      && |t.sent| == |FreeIds(s.buffers)|
      && (forall i :: 0 <= i < |t.sent| ==>
            t.sent[i].FreeRequest? && t.sent[i].id in s.buffers && s.buffers[t.sent[i].id].owner == Free)
      && (forall k :: k in FreeIds(s.buffers) ==> FreeRequest(k) in t.sent)
      && (forall i, j :: 0 <= i < j < |t.sent| ==> t.sent[i].id < t.sent[j].id)
      && Inbound(t.next, pkg, constructed) == Step(t.next, Ignored, [])
  {
    var idle := FreeIds(s.buffers);
    var t := Teardown(s);
    AscendingEnumerates(idle);
    var order := Ascending(idle);
    FreeRequestsAt(order);
    forall k | k in idle ensures FreeRequest(k) in t.sent {
      var i :| 0 <= i < |order| && order[i] == k;
      assert t.sent[i] == FreeRequest(k);
    }
  }

  /** Outside a deposit no entry is in flight, so a direct call of the
      outbound path is rejected and changes nothing. */
  lemma DirectOutboundRejected(s: State, b: ClientBuffer)
    requires Inv(s) && s.alive
    requires forall k :: k in s.buffers ==> s.buffers[k].owner != InFlightToServer
    ensures Outbound(s, b) == Step(s, Failed(InvalidTransition), [])
  {
  }

  /** No double ownership: distinct ids never share a buffer, and every entry
      has exactly the one owner recorded with it. */
  lemma SingleOwner(s: State, a: BufferId, b: BufferId)
    requires Inv(s) && a in s.buffers && b in s.buffers && a != b
    ensures s.buffers[a].buffer != s.buffers[b].buffer
  {
  }

  /** A worked sequence: two allocation requests, two withdraws that each wait, two
      deliveries that serve them in order, one deposit. */
  lemma Scenario(size: Size, format: PixelFormat, usage: int)
    ensures Allocations(size, format, usage, 2)
         == [AllocateRequest(size, format, usage), AllocateRequest(size, format, usage)]
    ensures var s0 := Initial(format, 2);
      && var w1 := Withdraw(s0);
      && w1.out == Queued(0)
      && var i1 := Inbound(w1.next, Package(1, size), true);
      && i1.out == Fulfilled(0, ClientBuffer(1, size, format))
      && var w2 := Withdraw(i1.next);
      && w2.out == Queued(1)
      && var i2 := Inbound(w2.next, Package(2, size), true);
      && i2.out == Fulfilled(1, ClientBuffer(2, size, format))
      && var d := Deposit(i2.next, ClientBuffer(1, size, format));
      && d.out == Done && d.sent == [SubmitRequest(ClientBuffer(1, size, format))]
      && d.next.buffers[1].owner == AtServer && d.next.buffers[2].owner == CheckedOut
      && d.next.requested == 0 && d.next.pending == []
  {
    assert Allocations(size, format, usage, 2)
        == [AllocateRequest(size, format, usage), AllocateRequest(size, format, usage)] by {
      assert Allocations(size, format, usage, 1) == [AllocateRequest(size, format, usage)];
    }
    var s0 := Initial(format, 2);
    InitialValid(format, 2);
    var w1 := Withdraw(s0);
    var i1 := Inbound(w1.next, Package(1, size), true);
    assert FreeIds(i1.next.buffers) == {} by {
      assert i1.next.buffers == map[1 := Entry(ClientBuffer(1, size, format), CheckedOut)];
    }
    var w2 := Withdraw(i1.next);
    var i2 := Inbound(w2.next, Package(2, size), true);
  }
}
