/** The handshake gate in the event loop. A rejected connection is marked for closing after its
    reply is flushed, but it may be read once more before that, and a second handshake can then
    open its submit phase. The loop is modelled with every choice of the environment left open:
    what arrives, what the sockets take, which poll events are reported, which connections are
    made and in which order requests are dispatched. */
module EventLoop {

  /** The part of a client record that decides whether its requests are served. */
  datatype Gate = Gate(
    open: bool,
    generation: nat,
    submit: bool,           // the phase: SUBMIT, or else HANDSHAKE
    closeAfterFlush: bool,
    pending: nat,           // bytes of output not yet written
    ready: bool)            // request_ready

  const CLOSED := Gate(false, 0, false, false, 0, false)
  const HANDSHAKE_RESULT: nat := 52

  /** What a read may bring: nothing now; the end or an error; or all the bytes expected, which
      make a handshake that is right or not, or bytes of a request, malformed, partial or whole. */
  datatype Input = Blocked | Ended | Full(valid: bool, whole: bool)

  class EventLoop {
    const clients: array<Gate>
    var nextGeneration: nat
    ghost var rejected: set<nat>    // connections whose handshake was refused
    ghost var dispatched: set<nat>  // connections that had a request dispatched

    /** Generations tell connections apart, and only an open submit phase has requests. */
    ghost predicate Valid()
      reads this, clients
    {
      && (forall i | 0 <= i < clients.Length && clients[i].open :: GateOk(clients[i]))
      && (forall i, j | 0 <= i < j < clients.Length && clients[i].open && clients[j].open ::
            clients[i].generation != clients[j].generation)
      && (forall x | x in rejected || x in dispatched :: x <= nextGeneration)
      && rejected !! dispatched
    }

    ghost predicate GateOk(g: Gate)
      reads this
    {
      && 0 < g.generation <= nextGeneration
      && (g.ready || g.generation in dispatched ==> g.submit)
      && (g.closeAfterFlush ==> g.generation in rejected)
    }

    /** A connection that will be closed by the next flush. */
    ghost predicate Doomed(g: Gate)
      reads this
    {
      g.open && g.generation in rejected ==> g.closeAfterFlush && g.pending > 0 && !g.ready
    }

    /** ... and, at the top of the loop, is still in its handshake phase. */
    ghost predicate AtTop(g: Gate)
      reads this
    {
      Doomed(g) && (g.open && g.generation in rejected ==> !g.submit)
    }

    ghost predicate Clean(g: Gate)
      reads this
    {
      g.open ==> g.generation !in rejected
    }

    constructor (n: nat)
      ensures fresh(clients) && clients.Length == n && rejected == {} && dispatched == {} && Valid()
      ensures forall i | 0 <= i < n :: !clients[i].open
    {
      clients := new Gate[n](_ => CLOSED);
      nextGeneration, rejected, dispatched := 0, {}, {};
    }

    /** Only client `c` has changed, and only it may have been added to the rejected. */
    twostate predicate Only(c: nat)
      reads this, clients
    {
      && old(rejected) <= rejected && dispatched == old(dispatched) && nextGeneration == old(nextGeneration)
      && (forall i | 0 <= i < clients.Length && i != c :: clients[i] == old(clients[i]))
      && (forall i | 0 <= i < clients.Length && i != c && clients[i].open ::
            clients[i].generation in rejected <==> clients[i].generation in old(rejected))
    }

    /** iouringd_service_client_readable */
    method ServiceReadable(c: nat) returns (ok: bool)
      requires Valid() && c < clients.Length && clients[c].open && AtTop(clients[c])
      modifies this`rejected, clients
      ensures Valid() && Only(c)
      ensures ok ==> Doomed(clients[c])
      ensures ok && old(Clean(clients[c])) ==> AtTop(clients[c])
    {
      var budget: nat :| budget >= 0;
      while !clients[c].ready
        invariant Valid() && Only(c) && rejected == old(rejected) && AtTop(clients[c])
        invariant clients[c] == old(clients[c])
        decreases budget
      {
        var input: Input :| input.Blocked? || input.Ended? || input.Full?;
        if input.Blocked? || budget == 0 {
          return true;
        }
        budget := budget - 1;
        if input.Ended? {
          clients[c] := CLOSED;
          return true;
        }
        if !clients[c].submit {
          ok := QueueHandshakeResult(c, input.valid);
          return;
        }
        if !input.valid {
          clients[c] := CLOSED;
          return true;
        }
        if input.whole {
          clients[c] := clients[c].(ready := true);
          return true;
        }
      }
      ok := true;
    }

    /** iouringd_queue_handshake_result; `ok` is false if the output has no room. */
    method QueueHandshakeResult(c: nat, valid: bool) returns (ok: bool)
      requires Valid() && c < clients.Length && clients[c].open && AtTop(clients[c])
      requires !clients[c].submit
      modifies this`rejected, clients
      ensures Valid() && Only(c)
      ensures ok ==> Doomed(clients[c])
      ensures ok && old(Clean(clients[c])) ==> AtTop(clients[c])
      ensures rejected == if valid then old(rejected) else old(rejected) + {clients[c].generation}
      ensures
        var g := old(clients[c]);
        clients[c] == g.(submit := valid, closeAfterFlush := g.closeAfterFlush || !valid,
                         pending := g.pending + if ok then HANDSHAKE_RESULT else 0)
    {
      var g := clients[c];
      if !valid {
        rejected := rejected + {g.generation};
        g := g.(closeAfterFlush := true);
      } else {
        g := g.(submit := true);
      }
      ok := *;
      if ok {
        g := g.(pending := g.pending + HANDSHAKE_RESULT);
      }
      clients[c] := g;
    }

    /** iouringd_service_ready_inputs: every client is read at most once. */
    method ServiceReadyInputs() returns (ok: bool)
      requires Valid() && forall i | 0 <= i < clients.Length :: AtTop(clients[i])
      modifies this`rejected, clients
      ensures Valid() && dispatched == old(dispatched) && old(rejected) <= rejected
      ensures ok ==> forall i | 0 <= i < clients.Length :: Doomed(clients[i])
    {
      for c := 0 to clients.Length
        invariant Valid() && dispatched == old(dispatched) && old(rejected) <= rejected
        invariant forall i | 0 <= i < c :: Doomed(clients[i])
        invariant forall i | c <= i < clients.Length :: AtTop(clients[i])
      {
        if clients[c].open {
          ok := ServiceReadable(c);
          if !ok {
            return;
          }
        }
      }
      ok := true;
    }

    /** iouringd_dispatch_ready_requests, in any order. */
    method DispatchReady()
      requires Valid() && forall i | 0 <= i < clients.Length :: Doomed(clients[i])
      modifies this`dispatched, clients
      ensures Valid() && rejected == old(rejected) && old(dispatched) <= dispatched
      ensures forall i | 0 <= i < clients.Length :: Doomed(clients[i])
    {
      var budget: nat :| budget >= 0;
      for round := 0 to budget
        invariant Valid() && old(dispatched) <= dispatched
        invariant forall i | 0 <= i < clients.Length :: Doomed(clients[i])
      {
        var c: nat :| c >= 0;
        if c < clients.Length && clients[c].open && clients[c].ready {
          var output: nat :| output >= 0;
          dispatched := dispatched + {clients[c].generation};
          clients[c] := clients[c].(ready := false, pending := clients[c].pending + output);
        }
      }
    }

    /** iouringd_reap_completions: records are queued for some of the clients. */
    method Reap()
      requires Valid() && forall i | 0 <= i < clients.Length :: Doomed(clients[i])
      modifies clients
      ensures Valid()
      ensures forall i | 0 <= i < clients.Length ::
        clients[i] == old(clients[i]).(pending := clients[i].pending) && clients[i].pending >= old(clients[i]).pending
    {
      for c := 0 to clients.Length
        invariant Valid()
        invariant forall i | 0 <= i < clients.Length ::
          clients[i] == old(clients[i]).(pending := clients[i].pending) && clients[i].pending >= old(clients[i]).pending
      {
        var output: nat :| output >= 0;
        if clients[c].open {
          clients[c] := clients[c].(pending := clients[c].pending + output);
        }
      }
    }

    /** iouringd_flush_client_output; `ok` is false if the socket failed. */
    method FlushOne(c: nat) returns (ok: bool)
      requires Valid() && c < clients.Length && clients[c].open
      modifies clients
      ensures Valid() && Only(c) && rejected == old(rejected)
      ensures clients[c] == old(clients[c]).(pending := clients[c].pending)
    {
      var written: nat :| written >= 0;
      var g := clients[c];
      clients[c] := g.(pending := if written < g.pending then g.pending - written else 0);
      ok := *;
    }

    /** iouringd_flush_client_outputs: whoever was rejected is gone afterwards. */
    method FlushAll()
      requires Valid() && forall i | 0 <= i < clients.Length :: Doomed(clients[i])
      modifies clients
      ensures Valid() && forall i | 0 <= i < clients.Length :: Clean(clients[i])
    {
      for c := 0 to clients.Length
        invariant Valid() && rejected == old(rejected) && dispatched == old(dispatched)
        invariant forall i | 0 <= i < c :: Clean(clients[i])
        invariant forall i | c <= i < clients.Length :: Doomed(clients[i])
      {
        if clients[c].open && clients[c].pending > 0 {
          var ok := FlushOne(c);
          if !ok || clients[c].closeAfterFlush {
            clients[c] := CLOSED;
          }
        }
      }
    }

    /** iouringd_accept_clients */
    method AcceptClients()
      requires Valid() && forall i | 0 <= i < clients.Length :: Clean(clients[i])
      modifies this`nextGeneration, clients
      ensures Valid() && forall i | 0 <= i < clients.Length :: Clean(clients[i])
    {
      var budget: nat :| budget >= 0;
      for round := 0 to budget
        invariant Valid() && forall i | 0 <= i < clients.Length :: Clean(clients[i])
      {
        var c: nat :| c >= 0;
        if c < clients.Length && !clients[c].open {
          nextGeneration := nextGeneration + 1;
          clients[c] := Gate(true, nextGeneration, false, false, 0, false);
        }
      }
    }

    /** The poll events of client `c`, whatever they are. */
    method HandleEvents(c: nat) returns (ok: bool)
      requires Valid() && c < clients.Length && Clean(clients[c])
      modifies this`rejected, clients
      ensures Valid() && Only(c)
      ensures ok ==> AtTop(clients[c])
    {
      var pollin: bool, pollout: bool, failed: bool := *, *, *;
      if pollout && clients[c].open {
        ok := FlushOne(c);
        if !ok || clients[c].closeAfterFlush {
          clients[c] := CLOSED;
          return true;
        }
      }
      if pollin && clients[c].open {
        ok := ServiceReadable(c);
        return;
      }
      if failed && clients[c].open {
        clients[c] := CLOSED;
      }
      ok := true;
    }

    /** The second half of the loop: connections, completions, then each client's events once. */
    method HandlePoll() returns (ok: bool)
      requires Valid() && forall i | 0 <= i < clients.Length :: Clean(clients[i])
      modifies this`nextGeneration, this`rejected, clients
      ensures Valid() && dispatched == old(dispatched) && old(rejected) <= rejected
      ensures ok ==> forall i | 0 <= i < clients.Length :: AtTop(clients[i])
    {
      AcceptClients();
      Reap();
      for c := 0 to clients.Length
        invariant Valid() && dispatched == old(dispatched) && old(rejected) <= rejected
        invariant forall i | 0 <= i < c :: AtTop(clients[i])
        invariant forall i | c <= i < clients.Length :: Clean(clients[i])
      {
        ok := HandleEvents(c);
        if !ok {
          return;
        }
      }
      ok := true;
    }

    /** iouringd_run, for any number of rounds: no rejected connection has had, or will have, a
        request dispatched. A round stops short of poll if there was progress. */
    method Run(rounds: nat)
      requires Valid() && forall i | 0 <= i < clients.Length :: AtTop(clients[i])
      modifies this`nextGeneration, this`rejected, this`dispatched, clients
      ensures rejected !! dispatched
      ensures old(rejected) <= rejected && old(dispatched) <= dispatched
    {
      for round := 0 to rounds
        invariant Valid() && forall i | 0 <= i < clients.Length :: AtTop(clients[i])
        invariant old(rejected) <= rejected && old(dispatched) <= dispatched
      {
        var ok := ServiceReadyInputs();
        if !ok {
          return;
        }
        DispatchReady();
        Reap();
        FlushAll();
        var progress: bool := *;
        if !progress {
          ok := HandlePoll();
          if !ok {
            return;
          }
        }
      }
    }
  }
}
