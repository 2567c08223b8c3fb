/** The daemon's promises, each stated on reachable states or on runs. */
module DaemonTheorems {
  import opened Protocol
  import opened DaemonState
  import opened DaemonSteps
  import opened DaemonInvariant
  import opened DaemonFrame
  import opened DaemonSafety
  import opened DaemonCompletion
  import opened DaemonRuns
  import opened DaemonHistory
  import Rings

  // ---- slots -----------------------------------------------------------------------

  lemma ClientFacts(g: Config, s: State, c: nat)
    requires Reachable(g, s) && c < |s.clients|
    ensures ClientOk(g, s.clients[c]) && CountedClient(s.clients[c], c, s.tasks)
  {
    hide ClientOk, CountedClient, OpsOk, TableOk, LedgerOk, SessionsOk, TasksOk;
    ReachableInv(g, s);
  }

  datatype FileShape = Free | Reserved | Registered | Draining | KernelClosing

  predicate HasShape(f: FileSlot, shape: FileShape) {
    match shape
    case Free => FreeFile(f)
    case Reserved => ReservedFile(f)
    case Registered => RegisteredFile(f)
    case Draining => DrainingFile(f)
    case KernelClosing => KernelClosingFile(f)
  }

  /** A file slot has exactly one shape, and its pin count is the number of active tasks
      that name it as their file or as the place of their result. */
  lemma FileSlotShapes(g: Config, s: State, c: nat, k: nat)
    requires Reachable(g, s) && c < |s.clients| && k < |s.clients[c].files|
    ensures
      var f := s.clients[c].files[k];
      && (exists shape :: HasShape(f, shape) && forall other :: HasShape(f, other) ==> other == shape)
      && f.inFlight == Count(UsesFile(c, k), s.tasks)
      && (RegisteredFile(f) ==> s.clients[c].open)
      && (DrainingFile(f) ==> !s.clients[c].open)
  {
    hide Reachable;
    ClientFacts(g, s, c);
    var f := s.clients[c].files[k];
    assert FileOk(s.clients[c].open, f);
    var shape :| HasShape(f, shape) by {
      assert HasShape(f, Free) || HasShape(f, Reserved) || HasShape(f, Registered)
          || HasShape(f, Draining) || HasShape(f, KernelClosing);
    }
  }

  /** A buffer slot is free, registered or draining, with the same accounting, and what is
      valid in it never exceeds its region. */
  lemma BufferSlotShapes(g: Config, s: State, c: nat, b: nat)
    requires Reachable(g, s) && c < |s.clients| && b < |s.clients[c].buffers|
    ensures
      var x := s.clients[c].buffers[b];
      && (x == FREE_BUFFER || (x.id != 0 && x.registered && x.closing == !s.clients[c].open))
      && x.inFlight == Count(UsesBuffer(c, b), s.tasks)
      && x.validLength <= g.ioMax
  {
    hide Reachable;
    ClientFacts(g, s, c);
    assert BufferOk(g, s.clients[c].open, s.clients[c].buffers[b]);
  }

  // ---- completions ------------------------------------------------------------------

  predicate Acknowledges(r: Record, id: nat) {
    r == SubmitResult(id, 0) && id != 0
  }

  predicate Completes(r: Record, id: nat) {
    r.Completion? && r.task == id
  }

  /** What a legal history looks like from outside. */
  ghost predicate WellOrdered(log: seq<Record>) {
    // handshake results come before everything else, refusals before the acceptance
    && (forall i, j | 0 <= i < j < |log| && log[j].HandshakeResult? :: log[i] == HandshakeResult(false))
    // acknowledged ids strictly increase
    && (forall i, j, x: nat, y: nat | 0 <= i < j < |log| && Acknowledges(log[i], x) && Acknowledges(log[j], y) :: x < y)
    // a completion comes after its acknowledgement
    && (forall j, x: nat | 0 <= j < |log| && Completes(log[j], x) ::
          exists i | 0 <= i < j :: Acknowledges(log[i], x))
    // and at most once
    && (forall i, j, x: nat | 0 <= i < j < |log| && Completes(log[i], x) :: !Completes(log[j], x))
    // every completion record is one the client library accepts
    && (forall j | 0 <= j < |log| && log[j].Completion? ::
          CompletionValid(log[j].task, log[j].kind, log[j].result, log[j].payload))
    // a payload is announced by the completion just before it
    && (forall j | 0 <= j < |log| && log[j].Payload? ::
          j > 0 && log[j - 1].Completion? && log[j - 1].payload == log[j].length != 0)
    // and an announced payload follows at once
    && (forall j | 0 <= j < |log| - 1 && log[j].Completion? && log[j].payload != 0 ::
          log[j + 1] == Payload(log[j].payload))
  }

  /** What the replayed session remembers of its history. */
  ghost predicate Remembers(log: seq<Record>, x: Session) {
    && (x.submit || forall i | 0 <= i < |log| :: log[i] == HandshakeResult(false))
    && (forall i, id: nat | 0 <= i < |log| && Acknowledges(log[i], id) :: id <= x.last)
    && (forall id | id in x.pending ::
          && (exists i | 0 <= i < |log| :: Acknowledges(log[i], id))
          && (forall j | 0 <= j < |log| :: !Completes(log[j], id)))
    && (forall i, id: nat | 0 <= i < |log| && Acknowledges(log[i], id) ::
          id in x.pending || exists j | i < j < |log| :: Completes(log[j], id))
    && x.due == (if log != [] && log[|log| - 1].Completion? then log[|log| - 1].payload else 0)
  }

  lemma {:induction false} ReplaySound(log: seq<Record>)
    requires Replay(log).Some?
    ensures WellOrdered(log) && Remembers(log, Replay(log).value)
  {
    if log != [] {
      var n := |log| - 1;
      var before, r := log[..n], log[n];
      ReplaySound(before);
      var x, y := Replay(before).value, Replay(log).value;
      assert forall i | 0 <= i < n :: log[i] == before[i];
      RememberMore(before, r, x, y);
      assert log == before + [r];
      OrderMore(before, r, x);
    }
  }

  lemma RememberMore(log: seq<Record>, r: Record, x: Session, y: Session)
    requires Remembers(log, x) && WellOrdered(log) && Observe(x, r) == Some(y)
    ensures Remembers(log + [r], y)
  {
    var more := log + [r];
    assert forall i | 0 <= i < |log| :: more[i] == log[i];
    assert more[|log|] == r;
    forall id | id in y.pending
      ensures exists i | 0 <= i < |more| :: Acknowledges(more[i], id)
      ensures forall j | 0 <= j < |more| :: !Completes(more[j], id)
    {
      if id in x.pending {
        var i :| 0 <= i < |log| && Acknowledges(log[i], id);
        assert Acknowledges(more[i], id);
      } else {
        assert Acknowledges(more[|log|], id);
      }
    }
    forall i, id: nat | 0 <= i < |more| && Acknowledges(more[i], id)
      ensures id in y.pending || exists j | i < j < |more| :: Completes(more[j], id)
    {
      if i < |log| && id !in y.pending {
        if id in x.pending {
          assert Completes(more[|log|], id);
        } else {
          var j :| i < j < |log| && Completes(log[j], id);
          assert Completes(more[j], id);
        }
      }
    }
  }

  lemma OrderMore(log: seq<Record>, r: Record, x: Session)
    requires Remembers(log, x) && WellOrdered(log) && Observe(x, r).Some?
    ensures WellOrdered(log + [r])
  {
    hide CompletionValid;
    var more := log + [r];
    assert forall i | 0 <= i < |log| :: more[i] == log[i];
    assert more[|log|] == r;
    forall j, id: nat | 0 <= j < |more| && Completes(more[j], id)
      ensures exists i | 0 <= i < j :: Acknowledges(more[i], id)
    {
      var i :| 0 <= i < j && i < |log| && Acknowledges(log[i], id);
      assert Acknowledges(more[i], id);
    }
    forall i, j, id: nat | 0 <= i < j < |more| && Completes(more[i], id) ensures !Completes(more[j], id) {
      assert Completes(log[i], id);
    }
    forall i, j, a: nat, b: nat | 0 <= i < j < |more| && Acknowledges(more[i], a) && Acknowledges(more[j], b)
      ensures a < b
    {
      assert Acknowledges(log[i], a);
    }
  }

  /** On a connection that is still open every accepted task was acknowledged first and has
      been completed exactly once, unless the kernel still has it. */
  lemma ExactlyOnce(g: Config, s: State, c: nat)
    requires Reachable(g, s) && c < |s.clients| && s.clients[c].open
    ensures c < |s.logs|
    ensures
      var log := s.logs[c];
      && WellOrdered(log)
      && (forall i, id: nat | 0 <= i < |log| && Acknowledges(log[i], id) ::
            || (exists j | i < j < |log| :: Completes(log[j], id))
            || (id in s.ops && s.ops[id].slot < |s.tasks| && s.tasks[s.ops[id].slot].client == c))
      && (forall t | 0 <= t < |s.tasks| && s.tasks[t].active && s.tasks[t].client == c ::
            && (exists i | 0 <= i < |log| :: Acknowledges(log[i], s.tasks[t].id))
            && (forall j | 0 <= j < |log| :: !Completes(log[j], s.tasks[t].id)))
      && (log != [] && log[|log| - 1].Completion? ==> log[|log| - 1].payload == 0)
  {
    ReachableInv(g, s);
    assert SessionOk(s, c);
    hide Inv;
    ReplaySound(s.logs[c]);
  }

  /** The kernel holds exactly the active tasks: completion ids are always known, each task
      has its own id, and ids stay below the reserved range. */
  lemma InFlightAreTasks(g: Config, s: State)
    requires Reachable(g, s)
    ensures forall id :: id in s.ops <==> exists i | 0 <= i < |s.tasks| :: s.tasks[i].active && s.tasks[i].id == id
    ensures forall id | id in s.ops :: FindTask(s.tasks, id) < |s.tasks|
    ensures forall i, j | 0 <= i < j < |s.tasks| && s.tasks[i].active && s.tasks[j].active ::
              s.tasks[i].id != s.tasks[j].id
    ensures forall i | 0 <= i < |s.tasks| && s.tasks[i].active ::
              0 < s.tasks[i].id < s.nextTaskId <= TASK_ID_RESERVED
  {
    hide Reachable, LedgerOk, TableOk, SessionsOk, ClientsOk, Counted, TaskOk, WorksOn;
    ReachableInv(g, s);
    forall id | id in s.ops ensures FindTask(s.tasks, id) < |s.tasks| {
      ReapFinds(g, s, id);
    }
    forall i, j | 0 <= i < j < |s.tasks| && s.tasks[i].active && s.tasks[j].active
      ensures s.tasks[i].id != s.tasks[j].id
    {
      assert s.ops[s.tasks[i].id].slot == i;
    }
  }

  // ---- sessions ------------------------------------------------------------------------

  /** No task outlives its session: the client slot of an active task still has the
      generation it had at admission, and is not up for reuse. */
  lemma NoCrossSession(g: Config, s: State, i: nat)
    requires Reachable(g, s) && i < |s.tasks| && s.tasks[i].active
    ensures s.tasks[i].client < |s.clients|
    ensures
      var cl := s.clients[s.tasks[i].client];
      cl.generation == s.tasks[i].generation && !Reusable(cl)
  {
    ReachableInv(g, s);
    hide LedgerOk, TableOk, SessionsOk, OpsOk;
    var c := s.tasks[i].client;
    assert TaskOk(g, s.clients[c], s.tasks[i]);
    if Reusable(s.clients[c]) { ReusableIsEmpty(g, s, c); }
  }

  // ---- fds ------------------------------------------------------------------------------

  /** Every token ever received or produced is in exactly one place. */
  lemma FdConservation(g: Config, s: State, fd: Fd)
    requires Reachable(g, s) && fd < s.issued
    ensures exists p: Place :: Holds(s, p, fd) && forall other :: Holds(s, other, fd) ==> other == p
  {
    ReachableInv(g, s);
    assert LedgerOk(s);
    hide Inv, Held;
    assert Holds(s, s.ledger[fd], fd);
  }

  /** No token is closed twice, and only tokens that were issued are held anywhere. */
  lemma ClosedOnce(g: Config, s: State)
    requires Reachable(g, s)
    ensures forall m, n | 0 <= m < n < |s.closed| :: s.closed[m] != s.closed[n]
    ensures forall p: Place, fd: Fd | Holds(s, p, fd) :: fd < s.issued
  {
    ReachableInv(g, s);
    hide Held;
  }

  /** Entry client*F + slot of the fixed-file table holds a file exactly when that slot is
      registered, and then the slot's own; distinct slots have distinct entries in range. */
  lemma TableMirrorsSlots(g: Config, s: State, c: nat, k: nat)
    requires Reachable(g, s) && c < |s.clients| && k < |s.clients[c].files|
    ensures
      var n := GlobalFile(g, c, k);
      && n < g.maxClients * g.fileSlots
      && (n in s.table <==> s.clients[c].files[k].registered)
      && (n in s.table ==> s.clients[c].files[k].fd == Some(s.table[n]))
      && (forall d: nat, l: nat | l < g.fileSlots && GlobalFile(g, d, l) == n :: d == c && l == k)
  {
    hide Reachable, LedgerOk, SessionsOk, ClientsOk, Counted, OpsOk, TasksOk;
    ReachableInv(g, s);
    ClientFacts(g, s, c);
    assert FileOk(s.clients[c].open, s.clients[c].files[k]);
    assert EntryOk(g, s.table, c, k, s.clients[c].files[k]);
    IndexBelow(g, c, k);
    forall d: nat, l: nat | l < g.fileSlots && GlobalFile(g, d, l) == GlobalFile(g, c, k)
      ensures d == c && l == k
    {
      IndexInjective(g, d, l, c, k);
    }
  }

  /** The byte region of buffer (c, b) in the registered storage. */
  function RegionStart(g: Config, c: nat, b: nat): nat {
    GlobalBuffer(g, c, b) * g.ioMax
  }

  /** Regions of distinct buffers do not overlap and all lie inside the storage. */
  lemma BufferRegions(g: Config, c: nat, b: nat, d: nat, e: nat)
    requires c < g.maxClients && b < g.bufferSlots && d < g.maxClients && e < g.bufferSlots
    ensures RegionStart(g, c, b) + g.ioMax <= g.maxClients * g.bufferSlots * g.ioMax
    ensures (c, b) != (d, e) ==>
              || RegionStart(g, c, b) + g.ioMax <= RegionStart(g, d, e)
              || RegionStart(g, d, e) + g.ioMax <= RegionStart(g, c, b)
  {
    var m, n := GlobalBuffer(g, c, b), GlobalBuffer(g, d, e);
    assert m < g.maxClients * g.bufferSlots by {
      assert (c + 1) * g.bufferSlots == c * g.bufferSlots + g.bufferSlots;
      Scale(c + 1, g.maxClients, g.bufferSlots);
    }
    assert (m + 1) * g.ioMax == m * g.ioMax + g.ioMax;
    assert (n + 1) * g.ioMax == n * g.ioMax + g.ioMax;
    Scale(m + 1, g.maxClients * g.bufferSlots, g.ioMax);
    if (c, b) != (d, e) {
      assert m != n by {
        assert (c + 1) * g.bufferSlots == c * g.bufferSlots + g.bufferSlots;
        assert (d + 1) * g.bufferSlots == d * g.bufferSlots + g.bufferSlots;
        if c < d { Scale(c + 1, d, g.bufferSlots); }
        if d < c { Scale(d + 1, c, g.bufferSlots); }
      }
      if m < n { Scale(m + 1, n, g.ioMax); } else { Scale(n + 1, m, g.ioMax); }
    }
  }

  // ---- accounting ---------------------------------------------------------------------------

  /** The counters are what they count and stay within their limits; a CANCEL never meets
      the ring-capacity guard. */
  lemma Accounting(g: Config, s: State)
    requires Reachable(g, s)
    ensures s.accepted == s.completions + s.outstanding
    ensures s.outstanding == Count(Every, s.tasks) <= g.taskCapacity
    ensures 0 <= s.outstandingCredit == Count(EveryCredit, s.tasks) <= g.taskCapacity
    ensures forall c | 0 <= c < |s.clients| ::
              && s.clients[c].outstanding == Count(OfClient(c), s.tasks)
              && s.clients[c].outstandingCredit == Count(CreditOf(c), s.tasks) <= g.creditLimit
    ensures forall c, target | 0 <= c < |s.clients| ::
              AdmissionError(g, s, s.clients[c], Cancel(target)) != EAGAIN
  {
    hide Reachable, LedgerOk, TableOk, SessionsOk, OpsOk, TasksOk, ClientsOk;
    ReachableInv(g, s);
    CountBound(Every, s.tasks);
    CountBound(EveryCredit, s.tasks);
    forall c | 0 <= c < |s.clients|
      ensures s.clients[c].outstanding == Count(OfClient(c), s.tasks)
      ensures s.clients[c].outstandingCredit == Count(CreditOf(c), s.tasks) <= g.creditLimit
    {
      ClientFacts(g, s, c);
    }
  }

  // ---- along a run -----------------------------------------------------------------------------

  /** A task in flight at the end of a run that was admitted before its start was in flight
      all along: same slot, same record, same operation, same connection. */
  lemma {:induction false} TaskStable(g: Config, s: State, events: seq<Event>, s': State, id: nat)
    requires Inv(g, s) && Reaches(g, s, events, s') && id < s.nextTaskId && id in s'.ops
    ensures id in s.ops && s'.ops[id] == s.ops[id] && s.ops[id].slot < |s.tasks| == |s'.tasks|
    ensures s'.tasks[s.ops[id].slot] == s.tasks[s.ops[id].slot]
    ensures
      var c := s.tasks[s.ops[id].slot].client;
      c < |s.clients| == |s'.clients| && (s'.clients[c].open ==> s.clients[c].open)
      && s'.clients[c].generation == s.clients[c].generation
    decreases |events|
  {
    hide Inv, Step, Enabled;
    if events == [] {
      ReapFinds(g, s, id);
      TaskOwner(g, s, id);
    } else {
      var s1 := Step(g, s, events[0]).state;
      StepKeeps(g, s, events[0]);
      StepFollows(g, s, events[0]);
      TaskStable(g, s1, events[1..], s', id);
      ReapFinds(g, s, id);
      TaskOwner(g, s, id);
    }
  }

  /** The client of a task in flight exists and cannot be reused. */
  lemma TaskOwner(g: Config, s: State, id: nat)
    requires Inv(g, s) && id in s.ops
    ensures s.ops[id].slot < |s.tasks|
    ensures var c := s.tasks[s.ops[id].slot].client; c < |s.clients| && !Reusable(s.clients[c])
  {
    hide LedgerOk, TableOk, SessionsOk;
    ReapFinds(g, s, id);
    var c := s.tasks[s.ops[id].slot].client;
    if Reusable(s.clients[c]) { ReusableIsEmpty(g, s, c); }
  }

  /** What task `t` of a sound client works on. */
  lemma WorksOnSlot(g: Config, s: State, id: nat)
    requires Inv(g, s) && id in s.ops
    ensures
      s.ops[id].slot < |s.tasks| &&
      var t := s.tasks[s.ops[id].slot];
      t.client < |s.clients| &&
      var cl := s.clients[t.client];
      && (t.file >= 0 && t.kind != KClose ==>
            && t.file < |cl.files|
            && cl.files[t.file].registered && cl.files[t.file].id == t.resourceId
            && cl.files[t.file].fd == s.ops[id].fd && s.ops[id].fd.Some?)
      && (t.buffer >= 0 ==>
            t.buffer < |cl.buffers| && cl.buffers[t.buffer].registered && cl.buffers[t.buffer].id == t.bufferId)
  {
    hide LedgerOk, TableOk, SessionsOk, Counted, IdsDistinct;
    ReapFinds(g, s, id);
    var t := s.tasks[s.ops[id].slot];
    assert TaskOk(g, s.clients[t.client], t);
    assert WorksOn(s, t, s.ops[id].fd);
    if t.file >= 0 {
      assert FileOk(s.clients[t.client].open, s.clients[t.client].files[t.file]);
    }
  }

  /** Pinning: while a task other than a CLOSE is in flight, the file slot it names stays
      registered with the same id and the same fd, which is the one its operation works on,
      and its buffer stays registered with the same id, whatever else happens meanwhile. */
  lemma Pinning(g: Config, s: State, events: seq<Event>, s': State, id: nat)
    requires Reachable(g, s) && Reaches(g, s, events, s') && id in s.ops && id in s'.ops
    ensures
      s.ops[id].slot < |s.tasks| && s'.ops[id] == s.ops[id] &&
      var t := s.tasks[s.ops[id].slot];
      t.client < |s.clients| == |s'.clients| &&
      var cl, cl' := s.clients[t.client], s'.clients[t.client];
      && (t.file >= 0 && t.kind != KClose ==>
            && t.file < |cl.files| && t.file < |cl'.files|
            && cl.files[t.file].registered && cl'.files[t.file].registered
            && cl'.files[t.file].id == cl.files[t.file].id
            && cl'.files[t.file].fd == cl.files[t.file].fd == s.ops[id].fd && s.ops[id].fd.Some?)
      && (t.buffer >= 0 ==>
            && t.buffer < |cl.buffers| && t.buffer < |cl'.buffers|
            && cl.buffers[t.buffer].registered && cl'.buffers[t.buffer].registered
            && cl'.buffers[t.buffer].id == cl.buffers[t.buffer].id)
  {
    hide Inv, Reachable, Reaches;
    ReachableInv(g, s);
    RunKeeps(g, s, events, s');
    IdInRange(g, s, id);
    TaskStable(g, s, events, s', id);
    WorksOnSlot(g, s, id);
    WorksOnSlot(g, s', id);
  }

  lemma IdInRange(g: Config, s: State, id: nat)
    requires Inv(g, s) && id in s.ops
    ensures id < s.nextTaskId
  {
    hide LedgerOk, TableOk, SessionsOk, Counted, ClientsOk, TaskOk, WorksOn;
    ReapFinds(g, s, id);
  }

  /** A task's connection is not replaced while the task is in flight: before every step of
      the run the client slot is unfit for reuse. So whatever the task delivers reaches the
      connection that asked for it or nobody, however often generations have wrapped. */
  lemma {:induction false} SameConnection(g: Config, s: State, events: seq<Event>, s': State, id: nat)
    requires Inv(g, s) && Reaches(g, s, events, s') && id in s.ops && id in s'.ops
    ensures
      s.ops[id].slot < |s.tasks| &&
      var c := s.tasks[s.ops[id].slot].client;
      && c < |s.clients| == |s'.clients|
      && Occupied(g, s, events, c) && !Reusable(s'.clients[c])
      && s'.clients[c].generation == s.clients[c].generation
      && (s'.clients[c].open ==> s.clients[c].open)
    decreases |events|
  {
    hide Inv, Step, Enabled, Reusable;
    IdInRange(g, s, id);
    TaskOwner(g, s, id);
    TaskStable(g, s, events, s', id);
    if events != [] {
      var s1 := Step(g, s, events[0]).state;
      StepKeeps(g, s, events[0]);
      StepFollows(g, s, events[0]);
      TaskStable(g, s1, events[1..], s', id);
      assert s1.ops[id] == s.ops[id];
      SameConnection(g, s1, events[1..], s', id);
    }
  }

  // ---- resource ids --------------------------------------------------------------------------------

  /** The ids of a client's slots, reserved and closing ones included, are all different. */
  lemma LiveIdsDistinct(g: Config, s: State, c: nat, m: nat, n: nat)
    requires Reachable(g, s) && c < |s.clients|
    requires m < n < |s.clients[c].files| + |s.clients[c].buffers|
    ensures IdAt(s.clients[c], m) == IdAt(s.clients[c], n) ==> IdAt(s.clients[c], m) == 0
  {
    hide Reachable;
    ClientFacts(g, s, c);
  }

  /** A slot has an id exactly when it is in use, whatever it is in use for. */
  lemma IdleIffNoId(g: Config, s: State, c: nat)
    requires Reachable(g, s) && c < |s.clients|
    ensures forall k | 0 <= k < |s.clients[c].files| ::
              s.clients[c].files[k].id == 0 <==> IdleFile(s.clients[c].files[k])
    ensures forall b | 0 <= b < |s.clients[c].buffers| ::
              s.clients[c].buffers[b].id == 0 <==> IdleBuffer(s.clients[c].buffers[b])
  {
    hide Reachable;
    ClientFacts(g, s, c);
    forall k | 0 <= k < |s.clients[c].files|
      ensures s.clients[c].files[k].id == 0 <==> IdleFile(s.clients[c].files[k])
    {
      assert FileOk(s.clients[c].open, s.clients[c].files[k]);
    }
    forall b | 0 <= b < |s.clients[c].buffers|
      ensures s.clients[c].buffers[b].id == 0 <==> IdleBuffer(s.clients[c].buffers[b])
    {
      assert BufferOk(g, s.clients[c].open, s.clients[c].buffers[b]);
    }
  }

  /** Along the run the counter of the client's resource ids stays clear of the 32-bit wrap. */
  ghost predicate CounterClear(g: Config, s: State, events: seq<Event>, c: nat)
    requires Occupied(g, s, events, c)
    decreases |events|
  {
    events == [] ||
    (&& s.clients[c].nextId + g.fileSlots + g.bufferSlots < U32
     && CounterClear(g, Step(g, s, events[0]).state, events[1..], c))
  }

  /** Until the counter wraps, a connection is given only ids above all that the counter has
      passed: later ids are larger, and roll-backs never move the counter below an id that
      is in use. */
  lemma {:induction false} IdsIncrease(g: Config, s: State, events: seq<Event>, s': State, c: nat, n: nat)
    requires Inv(g, s) && Reaches(g, s, events, s') && c < |s.clients| && n < g.fileSlots + g.bufferSlots
    requires Occupied(g, s, events, c) && CounterClear(g, s, events, c)
    ensures |s'.clients| == |s.clients|
    ensures
      var cl, cl' := s.clients[c], s'.clients[c];
      && |cl.files| + |cl.buffers| == |cl'.files| + |cl'.buffers| == g.fileSlots + g.bufferSlots
      && cl.nextId <= cl'.nextId
      && var id := IdAt(cl', n);
         id == 0 || id == IdAt(cl, n) || cl.nextId <= id < cl'.nextId
    decreases |events|
  {
    hide Inv, Step, Enabled;
    assert |s.clients[c].files| + |s.clients[c].buffers| == g.fileSlots + g.bufferSlots by { SlotCount(g, s, c); }
    if events != [] {
      var s1 := Step(g, s, events[0]).state;
      StepKeeps(g, s, events[0]);
      StepFollows(g, s, events[0]);
      assert ClientFollows(s.clients[c], s1.clients[c]);
      IdsIncrease(g, s1, events[1..], s', c, n);
    }
  }

  lemma SlotCount(g: Config, s: State, c: nat)
    requires Inv(g, s) && c < |s.clients|
    ensures |s.clients[c].files| == g.fileSlots && |s.clients[c].buffers| == g.bufferSlots
  {
    hide ClientsOk, OpsOk, TableOk, LedgerOk, SessionsOk, TasksOk, Counted;
  }

  // ---- completion queue ---------------------------------------------------------------------------

  /** At most `n` ids can have distinct slots below `n`. */
  lemma {:induction false} DistinctSlots(ops: map<nat, Op>, ids: set<nat>, n: nat)
    requires ids <= ops.Keys && (forall id | id in ids :: ops[id].slot < n)
    requires forall a, b | a in ids && b in ids && ops[a].slot == ops[b].slot :: a == b
    ensures |ids| <= n
  {
    if ids != {} {
      if id :| id in ids && ops[id].slot == n - 1 {
        DistinctSlots(ops, ids - {id}, n - 1);
      } else {
        var id :| id in ids;
        assert ops[id].slot < n - 1;
        DistinctSlots(ops, ids, n - 1);
      }
    }
  }

  function Elements(ids: seq<nat>): set<nat> {
    set id | id in ids
  }

  lemma {:induction false} SizeOfDistinct(ids: seq<nat>)
    requires forall i, j | 0 <= i < j < |ids| :: ids[i] != ids[j]
    ensures |Elements(ids)| == |ids|
  {
    if ids != [] {
      var n := |ids| - 1;
      SizeOfDistinct(ids[..n]);
      assert Elements(ids) == Elements(ids[..n]) + {ids[n]};
    }
  }

  /** The ids waiting in the completion queue are those of operations in flight, each once. */
  ghost predicate Posted(s: State, ids: seq<nat>) {
    && (forall i | 0 <= i < |ids| :: ids[i] in s.ops)
    && (forall i, j | 0 <= i < j < |ids| :: ids[i] != ids[j])
  }

  /** The kernel always finds room for the next completion in a queue of at least as many
      entries as the submission queue has, which is one more than the task slots. */
  lemma CompletionsFit(g: Config, s: State, ids: seq<nat>, id: nat, bits: nat)
    requires Reachable(g, s) && Posted(s, ids) && id in s.ops && id !in ids
    requires Rings.Pow2(bits) >= g.taskCapacity + 1
    ensures |ids| < Rings.Pow2(bits)
  {
    hide Reachable, LedgerOk, TableOk, SessionsOk, ClientsOk, Counted, TaskOk, WorksOn;
    ReachableInv(g, s);
    SizeOfDistinct(ids);
    DistinctSlots(s.ops, Elements(ids), g.taskCapacity);
  }

  /** The kernel posts the completion of an operation in flight: the ring never overflows. */
  method PostCompletion(g: Config, ghost s: State, ring: Rings.CompletionRing<nat>, id: nat)
    requires Reachable(g, s) && ring.Valid() && Posted(s, ring.contents) && id in s.ops && id !in ring.contents
    requires Rings.Pow2(ring.bits) >= g.taskCapacity + 1
    modifies ring, ring.cqes
    ensures ring.Valid() && ring.contents == old(ring.contents) + [id] && Posted(s, ring.contents)
  {
    hide Reachable;
    CompletionsFit(g, s, ring.contents, id, ring.bits);
    ring.Post(id);
  }
}
