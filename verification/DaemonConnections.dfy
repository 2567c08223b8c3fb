/** What the steps around a connection do, in terms of the states before and after: it begins,
    is greeted, brings fds and requests, ends, and what it leaves is swept away. */
module DaemonConnections {
  import opened Protocol
  import opened DaemonState
  import opened DaemonSteps
  import opened DaemonInvariant
  import opened DaemonControl

  /** Nothing is left of the last connection in this client slot. */
  predicate Vacant(cl: Client) {
    && !cl.open && cl.outstanding == 0
    && (forall k | 0 <= k < |cl.files| :: !cl.files[k].registered && !cl.files[k].closing && cl.files[k].inFlight == 0)
    && (forall b | 0 <= b < |cl.buffers| ::
          !cl.buffers[b].registered && !cl.buffers[b].closing && cl.buffers[b].inFlight == 0)
  }

  predicate FirstVacant(clients: seq<Client>, c: int) {
    0 <= c < |clients| && Vacant(clients[c]) && forall d | 0 <= d < c :: !Vacant(clients[d])
  }

  lemma VacantIsReusable(cl: Client)
    ensures Vacant(cl) <==> Reusable(cl)
  {
  }

  /** A new connection takes the first vacant client slot, under the next generation, in its
      handshake phase, with no resources, an empty log and its id counter at 1; if there is
      none, nothing changes. */
  lemma Connects(g: Config, s: State)
    requires Inv(g, s)
    ensures
      var s' := OpenClient(g, s);
      && ((forall c | 0 <= c < |s.clients| :: !Vacant(s.clients[c])) ==> s' == s)
      && (forall c | FirstVacant(s.clients, c) ::
            var generation := (s.nextGeneration + 1) % 0x1_0000_0000;
            && c < |s.logs|
            && s' == s.(clients := s.clients[c := s'.clients[c]], nextGeneration := generation, logs := s.logs[c := []])
            && s'.clients[c] == Client(true, generation, false, None, None, 0, 0, 1,
                                       s'.clients[c].files, s'.clients[c].buffers)
            && |s'.clients[c].files| == g.fileSlots && (forall f | f in s'.clients[c].files :: f == FREE_FILE)
            && |s'.clients[c].buffers| == g.bufferSlots && (forall b | b in s'.clients[c].buffers :: b == FREE_BUFFER))
  {
    hide LedgerOk, TableOk, SessionsOk, Counted, OpsOk, TasksOk, ClientsOk;
    forall c | 0 <= c < |s.clients| ensures Vacant(s.clients[c]) <==> Reusable(s.clients[c]) {
      VacantIsReusable(s.clients[c]);
    }
    hide Vacant, Reusable;
  }

  /** A handshake is answered with its verdict, and opens the submit phase if accepted. */
  lemma Greets(s: State, c: nat, accepted: bool, fits: bool)
    requires c < |s.clients| == |s.logs|
    ensures
      var x := ReplyHandshake(s, c, accepted, fits);
      && (x.Running? <==> fits)
      && (x.Running? ==>
            x.state == s.(clients := s.clients[c := s.clients[c].(submit := accepted)],
                          logs := s.logs[c := s.logs[c] + [HandshakeResult(accepted)]]))
  {
  }

  /** The connection is over: its slots drain if they were registered and stay otherwise, and
      an fd that was waiting is closed. Tasks, table and logs are as before. */
  ghost predicate Gone(s: State, s': State, c: nat)
    requires c < |s.clients|
  {
    var cl := s.clients[c];
    && c < |s'.clients|
    && var cl' := s'.clients[c];
       && s' == s.(clients := s.clients[c := cl'], ledger := s'.ledger, closed := s'.closed)
       && cl' == cl.(open := false, submit := false, received := None, request := None,
                     files := cl'.files, buffers := cl'.buffers)
       && |cl'.files| == |cl.files| && |cl'.buffers| == |cl.buffers|
       && (forall k | 0 <= k < |cl.files| ::
             cl'.files[k] == cl.files[k].(closing := cl.files[k].closing || cl.files[k].registered))
       && (forall b | 0 <= b < |cl.buffers| ::
             cl'.buffers[b] == cl.buffers[b].(closing := cl.buffers[b].closing || cl.buffers[b].registered))
       && s'.closed == s.closed + (if cl.received.Some? then [cl.received.value] else [])
  }

  lemma Disconnects(s: State, c: nat)
    requires c < |s.clients|
    ensures Gone(s, CloseClient(s, c), c)
  {
  }

  /** An fd that comes alone is kept for the next request; a second one is closed and ends the
      connection. */
  lemma HoldsFd(s: State, c: nat)
    requires c < |s.clients|
    ensures
      var s', cl := ReceiveFd(s, c), s.clients[c];
      if cl.received.None? then
        && s' == s.(clients := s.clients[c := cl.(received := Some(s.issued))], issued := s.issued + 1, ledger := s'.ledger)
      else
        && Gone(s.(issued := s.issued + 1, ledger := s.ledger[s.issued := Closed], closed := s.closed + [s.issued]), s', c)
  {
  }

  /** A request waits for dispatch as it was parsed; with an fd it did not ask for, it ends the
      connection. */
  lemma HoldsRequest(s: State, c: nat, r: Request)
    requires c < |s.clients|
    ensures
      var s', cl := AcceptRequest(s, c, r), s.clients[c];
      if cl.received.Some? && r != RegisterFd then Gone(s, s', c)
      else s' == s.(clients := s.clients[c := cl.(request := Some(r))])
  {
    hide CloseClient, Gone;
    Disconnects(s, c);
  }

  /** Sweeping a file slot that has drained frees it, closes its fd and takes it out of the
      table; the loop ends if the table cannot be updated. */
  lemma SweepsFile(g: Config, s: State, c: nat, k: nat, updates: bool)
    requires Inv(g, s) && c < |s.clients| && k < |s.clients[c].files|
    requires s.clients[c].files[k].closing && s.clients[c].files[k].inFlight == 0
    ensures
      var x, cl := TryReleaseFile(g, s, c, k, updates), s.clients[c];
      && cl.files[k].fd.Some?
      && (x.Running? <==> updates)
      && (x.Running? ==>
            && x.state == s.(clients := s.clients[c := cl.(files := cl.files[k := FREE_FILE])],
                             table := s.table - {GlobalFile(g, c, k)}, ledger := x.state.ledger,
                             closed := s.closed + [cl.files[k].fd.value]))
  {
    assert FileOk(s.clients[c].open, s.clients[c].files[k]) by { Sound(g, s, c); }
    hide Inv, ClientOk, DropFile;
    DropForm(g, s, c, k);
  }

  lemma SweepsBuffer(g: Config, s: State, c: nat, b: nat)
    requires Inv(g, s) && c < |s.clients| && b < |s.clients[c].buffers|
    requires s.clients[c].buffers[b].closing && s.clients[c].buffers[b].inFlight == 0
    ensures
      var cl := s.clients[c];
      TryReleaseBuffer(s, c, b) == s.(clients := s.clients[c := cl.(buffers := cl.buffers[b := FREE_BUFFER])])
  {
    hide Inv;
  }
}
