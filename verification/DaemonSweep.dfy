/** The sweep: what it leaves, and that nothing a disconnected client held survives it. */
module DaemonSweep {
  import opened DaemonState
  import opened DaemonSteps
  import opened DaemonInvariant
  import opened DaemonFrame
  import opened DaemonSafety
  import opened DaemonRuns
  import opened DaemonHistory

  function SweptFile(f: FileSlot): FileSlot {
    if f.closing && f.inFlight == 0 then FREE_FILE else f
  }

  function SweptBuffer(b: BufferSlot): BufferSlot {
    if b.closing && b.inFlight == 0 then FREE_BUFFER else b
  }

  /** `s'` is `s` with the idle closing file slots of client `c` from `k` on freed. */
  ghost predicate FilesSwept(s: State, s': State, c: nat, k: nat) {
    && c < |s.clients| == |s'.clients| && SameWork(s, s')
    && s'.clients == s.clients[c := s.clients[c].(files := s'.clients[c].files)]
    && |s'.clients[c].files| == |s.clients[c].files|
    && (forall j | 0 <= j < |s.clients[c].files| ::
          s'.clients[c].files[j] == if j < k then s.clients[c].files[j] else SweptFile(s.clients[c].files[j]))
  }

  lemma FileRelease(g: Config, s: State, c: nat, k: nat, updates: bool)
    requires c < |s.clients| && k < |s.clients[c].files|
    requires s.clients[c].files[k].closing && s.clients[c].files[k].inFlight == 0
    ensures var r := TryReleaseFile(g, s, c, k, updates);
            r.Running? ==> r.state.clients == s.clients[c := SetFile(s.clients[c], k, FREE_FILE)] && SameWork(s, r.state)
  {
  }

  lemma {:induction false} SweepFilesResult(g: Config, s: State, c: nat, k: nat, updates: bool)
    requires c < |s.clients| && k <= |s.clients[c].files|
    ensures var r := SweepFilesFrom(g, s, c, k, updates); r.Running? ==> FilesSwept(s, r.state, c, k)
    decreases |s.clients[c].files| - k
  {
    hide TryReleaseFile;
    if k < |s.clients[c].files| {
      var f := s.clients[c].files[k];
      if !f.closing || f.inFlight != 0 {
        SweepFilesResult(g, s, c, k + 1, updates);
      } else {
        FileRelease(g, s, c, k, updates);
        var r := TryReleaseFile(g, s, c, k, updates);
        if r.Running? { SweepFilesResult(g, r.state, c, k + 1, updates); }
      }
    }
  }

  lemma {:induction false} SweepBuffersResult(s: State, c: nat, b: nat)
    requires c < |s.clients| && b <= |s.clients[c].buffers|
    ensures
      var s' := SweepBuffersFrom(s, c, b);
      && SameWork(s, s')
      && s'.clients == s.clients[c := s.clients[c].(buffers := s'.clients[c].buffers)]
      && |s'.clients[c].buffers| == |s.clients[c].buffers|
      && (forall j | 0 <= j < |s.clients[c].buffers| ::
            s'.clients[c].buffers[j] == if j < b then s.clients[c].buffers[j] else SweptBuffer(s.clients[c].buffers[j]))
    decreases |s.clients[c].buffers| - b
  {
    if b < |s.clients[c].buffers| {
      var x := s.clients[c].buffers[b];
      SweepBuffersResult(if x.closing && x.inFlight == 0 then TryReleaseBuffer(s, c, b) else s, c, b + 1);
    }
  }

  function SweptClient(cl: Client): Client {
    cl.(files := seq(|cl.files|, k requires 0 <= k < |cl.files| => SweptFile(cl.files[k])),
        buffers := seq(|cl.buffers|, b requires 0 <= b < |cl.buffers| => SweptBuffer(cl.buffers[b])))
  }

  /** A sweep that succeeds frees every idle closing slot of every client, and changes no
      other slot. */
  lemma {:induction false} SweepResult(g: Config, s: State, c: nat, updates: bool)
    requires c <= |s.clients|
    ensures
      var r := SweepFrom(g, s, c, updates);
      r.Running? ==>
        && |r.state.clients| == |s.clients|
        && (forall d | 0 <= d < |s.clients| ::
              r.state.clients[d] == if d < c then s.clients[d] else SweptClient(s.clients[d]))
    decreases |s.clients| - c
  {
    hide SweepFilesFrom, SweepBuffersFrom;
    if c < |s.clients| {
      SweepFilesResult(g, s, c, 0, updates);
      var r := SweepFilesFrom(g, s, c, 0, updates);
      if r.Running? {
        SweepBuffersResult(r.state, c, 0);
        var s' := SweepBuffersFrom(r.state, c, 0);
        assert s'.clients[c] == SweptClient(s.clients[c]);
        SweepResult(g, s', c + 1, updates);
      }
    }
  }

  // ---- the invariant --------------------------------------------------------------------

  lemma {:induction false} SweepFilesKeeps(g: Config, s: State, c: nat, k: nat, updates: bool)
    requires Inv(g, s) && c < |s.clients| && k <= |s.clients[c].files|
    ensures var r := SweepFilesFrom(g, s, c, k, updates); r.Running? ==> Inv(g, r.state)
    decreases |s.clients[c].files| - k
  {
    hide Inv, TryReleaseFile;
    if k < |s.clients[c].files| {
      var f := s.clients[c].files[k];
      if !f.closing || f.inFlight != 0 {
        SweepFilesKeeps(g, s, c, k + 1, updates);
      } else {
        TryReleaseFileKeeps(g, s, c, k, updates);
        var r := TryReleaseFile(g, s, c, k, updates);
        if r.Running? { SweepFilesKeeps(g, r.state, c, k + 1, updates); }
      }
    }
  }

  lemma {:induction false} SweepBuffersKeeps(g: Config, s: State, c: nat, b: nat)
    requires Inv(g, s) && c < |s.clients| && b <= |s.clients[c].buffers|
    ensures Inv(g, SweepBuffersFrom(s, c, b))
    decreases |s.clients[c].buffers| - b
  {
    hide Inv;
    if b < |s.clients[c].buffers| {
      var x := s.clients[c].buffers[b];
      TryReleaseBufferKeeps(g, s, c, b);
      SweepBuffersKeeps(g, if x.closing && x.inFlight == 0 then TryReleaseBuffer(s, c, b) else s, c, b + 1);
    }
  }

  lemma {:induction false} SweepKeeps(g: Config, s: State, c: nat, updates: bool)
    requires Inv(g, s) && c <= |s.clients|
    ensures var r := SweepFrom(g, s, c, updates); r.Running? ==> Inv(g, r.state)
    decreases |s.clients| - c
  {
    hide Inv, SweepFilesFrom, SweepBuffersFrom;
    if c < |s.clients| {
      SweepFilesKeeps(g, s, c, 0, updates);
      var r := SweepFilesFrom(g, s, c, 0, updates);
      if r.Running? {
        SweepBuffersKeeps(g, r.state, c, 0);
        SweepKeeps(g, SweepBuffersFrom(r.state, c, 0), c + 1, updates);
      }
    }
  }

  // ---- reclamation ------------------------------------------------------------------------

  /** Without tasks, a client pins nothing. */
  lemma NoTasksNoPins(g: Config, s: State, c: nat)
    requires Inv(g, s) && c < |s.clients| && s.clients[c].outstanding == 0
    ensures forall k | 0 <= k < |s.clients[c].files| :: s.clients[c].files[k].inFlight == 0
    ensures forall b | 0 <= b < |s.clients[c].buffers| :: s.clients[c].buffers[b].inFlight == 0
  {
    hide LedgerOk, TableOk, SessionsOk, OpsOk, TasksOk, ClientsOk;
    assert CountedClient(s.clients[c], c, s.tasks);
    CountNone(OfClient(c), s.tasks);
    forall k | 0 <= k < |s.clients[c].files| ensures s.clients[c].files[k].inFlight == 0 {
      CountNone(UsesFile(c, k), s.tasks);
    }
    forall b | 0 <= b < |s.clients[c].buffers| ensures s.clients[c].buffers[b].inFlight == 0 {
      CountNone(UsesBuffer(c, b), s.tasks);
    }
  }

  /** Reclamation: once the last task of a disconnected client is over, one sweep frees all
      its slots and makes the client slot fit for a new connection. */
  lemma Reclamation(g: Config, s: State, updates: bool, c: nat)
    requires Reachable(g, s) && c < |s.clients| && !s.clients[c].open && s.clients[c].outstanding == 0
    requires SweepFrom(g, s, 0, updates).Running?
    ensures
      var s' := SweepFrom(g, s, 0, updates).state;
      && |s'.clients| == |s.clients|
      && (forall k | 0 <= k < |s'.clients[c].files| :: s'.clients[c].files[k] == FREE_FILE)
      && (forall b | 0 <= b < |s'.clients[c].buffers| :: s'.clients[c].buffers[b] == FREE_BUFFER)
      && Reusable(s'.clients[c])
  {
    hide SweepFrom, Reachable, LedgerOk, TableOk, SessionsOk, OpsOk, TasksOk, Counted;
    ReachableInv(g, s);
    NoTasksNoPins(g, s, c);
    SweepResult(g, s, 0, updates);
    var cl := s.clients[c];
    assert ClientOk(g, cl);
    forall k | 0 <= k < |cl.files| ensures SweptFile(cl.files[k]) == FREE_FILE {
      assert FileOk(false, cl.files[k]);
    }
    forall b | 0 <= b < |cl.buffers| ensures SweptBuffer(cl.buffers[b]) == FREE_BUFFER {
      assert BufferOk(g, false, cl.buffers[b]);
    }
  }

  /** After disconnection no slot becomes registered again, along any run, until the client
      slot has been given up entirely. */
  lemma {:induction false} NeverRegistersAgain(g: Config, s: State, events: seq<Event>, s': State, c: nat)
    requires Inv(g, s) && Reaches(g, s, events, s') && c < |s.clients|
    requires Occupied(g, s, events, c) && !s.clients[c].open
    ensures |s'.clients| == |s.clients|
    ensures
      var cl, cl' := s.clients[c], s'.clients[c];
      && !cl'.open && |cl'.files| == |cl.files| && |cl'.buffers| == |cl.buffers|
      && (forall k | 0 <= k < |cl.files| && !cl.files[k].registered :: !cl'.files[k].registered)
      && (forall b | 0 <= b < |cl.buffers| && !cl.buffers[b].registered :: !cl'.buffers[b].registered)
    decreases |events|
  {
    hide Inv, Step, Enabled;
    if events != [] {
      var s1 := Step(g, s, events[0]).state;
      StepKeeps(g, s, events[0]);
      StepFollows(g, s, events[0]);
      assert ClientFollows(s.clients[c], s1.clients[c]);
      NeverRegistersAgain(g, s1, events[1..], s', c);
    }
  }
}
