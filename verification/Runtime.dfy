/** The runtime object: the daemon's own fields, changed in place in the daemon's order,
    slot by slot and with its roll-backs. Every method is proved to have the effect of the
    step function of the same name. */
module Runtime {
  import opened Protocol
  import opened DaemonState
  import opened DaemonSteps
  import opened DaemonInvariant
  import opened DaemonCompletion
  import opened CompletionOrder

  /** The second of two updates of the same client is the one that counts. */
  lemma SetTwice(s: State, c: nat, a: Client, b: Client)
    requires c < |s.clients|
    ensures SetClient(SetClient(s, c, a), c, b) == SetClient(s, c, b)
  {
    assert s.clients[c := a][c := b] == s.clients[c := b];
  }

  lemma SetFileTwice(cl: Client, k: nat, a: FileSlot, b: FileSlot)
    requires k < |cl.files|
    ensures SetFile(SetFile(cl, k, a), k, b) == SetFile(cl, k, b)
  {
    assert cl.files[k := a][k := b] == cl.files[k := b];
  }

  lemma SetBufferTwice(cl: Client, k: nat, a: BufferSlot, b: BufferSlot)
    requires k < |cl.buffers|
    ensures SetBuffer(SetBuffer(cl, k, a), k, b) == SetBuffer(cl, k, b)
  {
    assert cl.buffers[k := a][k := b] == cl.buffers[k := b];
  }

  /** The ring has the task in slot `i`: it is counted and its client told. */
  function Acknowledge(s: State, c: nat, i: nat, o: Oracle): Outcome
    requires c < |s.clients| == |s.logs| && i < |s.tasks|
  {
    var cl := s.clients[c];
    var credit := if s.tasks[i].credit then 1 else 0;
    if !o.fits then Stopped
    else Running(Queue(SetClient(s, c, cl.(request := None, outstanding := cl.outstanding + 1,
                                           outstandingCredit := cl.outstandingCredit + credit)).(
                         nextTaskId := s.nextTaskId + 1,
                         outstanding := s.outstanding + 1,
                         outstandingCredit := s.outstandingCredit + credit,
                         accepted := s.accepted + 1),
                       c, [SubmitResult(s.tasks[i].id, 0)]))
  }

  /** State `s` with task `t` in slot `i` and in the ring, and client record `cl`. */
  function Placed(s: State, c: nat, cl: Client, i: nat, t: Task, fd: Option<Fd>): State
    requires c < |s.clients| && i < |s.tasks|
  {
    SetClient(s, c, cl).(tasks := s.tasks[i := t], ops := s.ops[t.id := Op(i, fd)])
  }

  lemma AdmitAcknowledges(s: State, c: nat, cl: Client, i: nat, t: Task, fd: Option<Fd>, o: Oracle)
    requires c < |s.clients| == |s.logs| && i < |s.tasks|
    ensures Acknowledge(Placed(s, c, cl, i, t, fd), c, i, o) == Admit(s, c, cl, i, t, fd, o)
  {
    var cl' := Placed(s, c, cl, i, t, fd).clients[c];
    assert cl' == cl;
    var credit := if t.credit then 1 else 0;
    SetTwice(s, c, cl, cl.(request := None, outstanding := cl.outstanding + 1,
                           outstandingCredit := cl.outstandingCredit + credit));
  }

  lemma AdmitTwice(s: State, c: nat, a: Client, cl: Client, i: nat, t: Task, fd: Option<Fd>, o: Oracle)
    requires c < |s.clients| == |s.logs| && i < |s.tasks|
    ensures Admit(SetClient(s, c, a), c, cl, i, t, fd, o) == Admit(s, c, cl, i, t, fd, o)
  {
    var credit := if t.credit then 1 else 0;
    SetTwice(s, c, a, cl.(request := None, outstanding := cl.outstanding + 1,
                          outstandingCredit := cl.outstandingCredit + credit));
  }

  /** Clearing the slot undoes whatever record was in it. */
  lemma UndoneTask(s: State, c: nat, i: nat, t: Task, error: nat, o: Oracle)
    requires c < |s.clients| == |s.logs| && i < |s.tasks|
    ensures RejectAt(s.(tasks := s.tasks[i := t]), c, i, error, o) == RejectAt(s, c, i, error, o)
  {
    assert s.tasks[i := t][i := IDLE_TASK] == s.tasks[i := IDLE_TASK];
  }

  lemma SlotLengths(cl: Client, k: nat, f: FileSlot)
    requires k < |cl.files|
    ensures |SetFile(cl, k, f).files| == |cl.files| && SetFile(cl, k, f).files[k] == f
  {
  }

  lemma PinUnpin(cl: Client, k: nat)
    requires k < |cl.files|
    ensures |PinFile(cl, k).files| == |cl.files| && PinFile(cl, k).files[k].inFlight > 0
    ensures SetFile(PinFile(cl, k), k, Unpin(PinFile(cl, k).files[k])) == cl
  {
    assert PinFile(cl, k).files[k := cl.files[k]] == cl.files;
  }

  lemma PinLengths(cl: Client, k: nat)
    requires k < |cl.files|
    ensures |PinFile(cl, k).files| == |cl.files| && PinFile(cl, k).buffers == cl.buffers
  {
  }

  lemma UndoneAccept(cl: Client, k: nat, k': nat, id: nat, next: nat)
    requires k < |cl.files| && k' < |cl.files| && k != k'
    ensures
      var x := Reserve(PinFile(cl, k).(nextId := next), k', id);
      && |x.files| == |cl.files| && x.files[k].inFlight > 0
      && var y := SetFile(x, k, Unpin(x.files[k]));
         && |y.files| == |cl.files| && y.files[k'].fd.None?
         && SetFile(y.(nextId := id), k', FREE_FILE) == SetFile(cl.(nextId := id), k', FREE_FILE)
  {
    var x := Reserve(PinFile(cl, k).(nextId := next), k', id);
    var y := SetFile(x, k, Unpin(x.files[k]));
    assert y.files[k' := FREE_FILE] == cl.files[k' := FREE_FILE];
  }

  lemma ReservedSlot(cl: Client, k: nat, id: nat)
    requires k < |cl.files|
    ensures |Reserve(cl, k, id).files| == |cl.files| && Reserve(cl, k, id).files[k] == FileSlot(id, None, 1, false, false)
  {
  }

  /** Giving up a reservation and the task that made it leaves what was there before. */
  lemma UndoneReservation(s: State, c: nat, k: nat, id: nat, i: nat, t: Task, error: nat, o: Oracle)
    requires c < |s.clients| == |s.logs| && k < |s.clients[c].files| && i < |s.tasks|
    ensures
      var cl := s.clients[c];
      var s1 := SetClient(s, c, Reserve(cl, k, id)).(tasks := s.tasks[i := t]);
      RejectAt(SetClient(s1, c, SetFile(s1.clients[c].(nextId := id), k, FREE_FILE)), c, i, error, o)
      == RejectAt(SetClient(s, c, SetFile(cl.(nextId := id), k, FREE_FILE)), c, i, error, o)
  {
    hide RejectAt;
    var cl := s.clients[c];
    var cl' := SetFile(cl.(nextId := id), k, FREE_FILE);
    SetFileTwice(cl.(nextId := id), k, FileSlot(id, None, 1, false, false), FREE_FILE);
    SetTwice(s, c, Reserve(cl, k, id), cl');
    UndoneTask(SetClient(s, c, cl'), c, i, t, error, o);
  }

  lemma UndoneClose(s: State, n: nat, c: nat, k: nat, i: nat, t: Task, x: FileSlot, o: Oracle)
    requires c < |s.clients| == |s.logs| && k < |s.clients[c].files| && i < |s.tasks|
    requires s.clients[c].files[k].fd.Some?
    ensures
      var cl := s.clients[c];
      var f := cl.files[k];
      var s1 := SetClient(s, c, SetFile(cl, k, x)).(tasks := s.tasks[i := t], table := s.table - {n});
      RejectAt(SetClient(s1, c, SetFile(s1.clients[c], k, f)).(table := s1.table[n := f.fd.value]), c, i, o.submit, o)
      == RejectAt(s.(table := s.table[n := f.fd.value]), c, i, o.submit, o)
  {
    hide RejectAt;
    var cl := s.clients[c];
    var f := cl.files[k];
    SetFileTwice(cl, k, x, f);
    assert SetFile(cl, k, f).files == cl.files;
    SetTwice(s, c, SetFile(cl, k, x), cl);
    assert s.clients[c := cl] == s.clients;
    assert (s.table - {n})[n := f.fd.value] == s.table[n := f.fd.value];
    UndoneTask(s.(table := s.table[n := f.fd.value]), c, i, t, o.submit, o);
  }

  lemma SweepLengths(g: Config, s: State, c: nat, updates: bool)
    requires c < |s.clients|
    ensures var r := SweepFilesFrom(g, s, c, 0, updates);
            r.Running? ==> |r.state.clients| == |s.clients| && |SweepBuffersFrom(r.state, c, 0).clients| == |s.clients|
  {
  }

  lemma NothingPrepared(g: Config, s: State, t: Task)
    requires t.client < |s.clients| && t.closeFd.None?
    ensures Prepare(g, s, t, NoFile) == s
  {
  }

  lemma PreparedLengths(g: Config, s: State, t: Task, p: Product, q: Cqe)
    requires t.client < |s.clients| == |s.logs|
    ensures var s1 := Prepare(g, s, t, p); |s1.clients| == |s.clients| && s1.logs == s.logs && s1.tasks == s.tasks
    ensures var s2 := ReadBack(Prepare(g, s, t, p), t.client, t, q);
            |s2.clients| == |s.clients| && s2.logs == s.logs && s2.tasks == s.tasks
  {
  }

  lemma LetGoLengths(g: Config, s: State, c: nat, k: int, releases: bool)
    requires c < |s.clients|
    ensures var r := LetGoFile(g, s, c, k, releases); r.Running? ==> |r.state.clients| == |s.clients|
  {
  }

  lemma LetGoResultLengths(g: Config, s: State, c: nat, k: int, releases: bool)
    requires c < |s.clients|
    ensures var r := LetGoResult(g, s, c, k, releases); r.Running? ==> |r.state.clients| == |s.clients|
  {
  }

  lemma LetGoTasks(g: Config, s: State, t: Task, releases: bool)
    requires t.client < |s.clients|
    ensures var r := LetGo(g, s, t, releases);
            r.Running? ==> |r.state.clients| == |s.clients| && r.state.tasks == s.tasks
  {
  }

  /** An entry of the completion queue. */
  datatype Entry = Entry(id: nat, cqe: Cqe)

  /** The kernel posts completions of operations in flight, each once. */
  ghost predicate KernelPosts(g: Config, s: State, entries: seq<Entry>)
    decreases |entries|
  {
    entries == [] ||
    (&& Shape(g, s) && entries[0].id in s.ops
     && s.ops[entries[0].id].slot < |s.tasks| && KernelMayAnswer(s.tasks[s.ops[entries[0].id].slot], entries[0].cqe)
     && var r := ReapOne(g, s, entries[0].id, entries[0].cqe);
        r.Running? ==> KernelPosts(g, r.state, entries[1..]))
  }

  ghost function ReapAll(g: Config, s: State, entries: seq<Entry>): Outcome
    requires KernelPosts(g, s, entries)
    decreases |entries|
  {
    if entries == [] then Running(s)
    else
      match ReapOne(g, s, entries[0].id, entries[0].cqe)
      case Stopped => Stopped
      case Running(s') => ReapAll(g, s', entries[1..])
  }

  lemma ReapIsInOrder(g: Config, s: State, id: nat, q: Cqe)
    requires Inv(g, s) && id in s.ops
    ensures
      var i := s.ops[id].slot;
      && i < |s.tasks| && s.tasks[i].client < |s.clients| == |s.logs|
      && (forall j | 0 <= j < |s.tasks| :: s.tasks[j].client < |s.clients|)
      && (s.tasks[i].closeFd.Some? ==> !MakesFile(s.tasks[i].kind))
      && ReapOne(g, s, id, q) == InOrder(g, s, i, q)
  {
    hide InOrder, CompleteTask, LedgerOk, TableOk, SessionsOk, Counted, ClientsOk;
    ReapFinds(g, s, id);
    InOrderCompletes(g, s, s.ops[id].slot, q);
  }

  class Runtime {
    const g: Config
    var clients: seq<Client>
    var tasks: seq<Task>
    var nextTaskId: nat
    var nextGeneration: nat
    var outstanding: int
    var outstandingCredit: int
    var accepted: nat
    var rejected: nat
    var completions: nat
    var issued: nat  // the next new fd

    // What the kernel holds, and the histories.
    ghost var ops: map<nat, Op>
    ghost var table: map<nat, Fd>
    ghost var ledger: map<Fd, Place>
    ghost var closed: seq<Fd>
    ghost var logs: seq<seq<Record>>

    ghost function Abs(): State
      reads this
    {
      State(clients, tasks, nextTaskId, nextGeneration, outstanding, outstandingCredit,
            accepted, rejected, completions, ops, table, issued, ledger, closed, logs)
    }

    /** A return code below 0 means that the event loop ends; otherwise the object now
        is in the state that the step function gives. */
    ghost predicate Did(rc: int, r: Outcome)
      reads this
    {
      if rc < 0 then r.Stopped? else r == Running(Abs())
    }

    ghost predicate Valid()
      reads this
    {
      Shape(g, Abs())
    }

    constructor (g: Config)
      requires ConfigOk(g)
      ensures this.g == g && Abs() == Initial(g) && Valid()
    {
      var nobody := FreshClient(g, 0).(open := false);
      this.g := g;
      clients := seq(g.maxClients, _ => nobody);
      tasks := seq(g.taskCapacity, _ => IDLE_TASK);
      nextTaskId := 1;
      nextGeneration := 0;
      outstanding, outstandingCredit := 0, 0;
      accepted, rejected, completions := 0, 0, 0;
      ops, table, issued, ledger, closed := map[], map[], 0, map[], [];
      logs := seq(g.maxClients, _ => []);
    }

    // ---- searches ------------------------------------------------------------------

    method FindFreeFileSlot(c: nat) returns (k: nat)
      requires c < |clients|
      ensures k == FirstIdleFile(clients[c].files)
    {
      k := 0;
      while k < |clients[c].files| && !IdleFile(clients[c].files[k])
        invariant k <= |clients[c].files|
        invariant FirstIdleFile(clients[c].files) == FirstIdleFile(clients[c].files, k)
      {
        k := k + 1;
      }
    }

    method FindFreeBufferSlot(c: nat) returns (b: nat)
      requires c < |clients|
      ensures b == FirstIdleBuffer(clients[c].buffers)
    {
      b := 0;
      while b < |clients[c].buffers| && !IdleBuffer(clients[c].buffers[b])
        invariant b <= |clients[c].buffers|
        invariant FirstIdleBuffer(clients[c].buffers) == FirstIdleBuffer(clients[c].buffers, b)
      {
        b := b + 1;
      }
    }

    method FindFileSlot(c: nat, id: nat) returns (k: nat)
      requires c < |clients|
      ensures k == FindFile(clients[c].files, id)
    {
      k := 0;
      while k < |clients[c].files| && !(clients[c].files[k].registered && clients[c].files[k].id == id)
        invariant k <= |clients[c].files|
        invariant FindFile(clients[c].files, id) == FindFile(clients[c].files, id, k)
      {
        k := k + 1;
      }
    }

    method FindBufferSlot(c: nat, id: nat) returns (b: nat)
      requires c < |clients|
      ensures b == FindBuffer(clients[c].buffers, id)
    {
      b := 0;
      while b < |clients[c].buffers| && !(clients[c].buffers[b].registered && clients[c].buffers[b].id == id)
        invariant b <= |clients[c].buffers|
        invariant FindBuffer(clients[c].buffers, id) == FindBuffer(clients[c].buffers, id, b)
      {
        b := b + 1;
      }
    }

    method FindFreeTaskSlot() returns (i: nat)
      ensures i == FirstIdleTask(tasks)
    {
      i := 0;
      while i < |tasks| && tasks[i].active
        invariant i <= |tasks|
        invariant FirstIdleTask(tasks) == FirstIdleTask(tasks, i)
      {
        i := i + 1;
      }
    }

    method FindTaskSlot(id: nat) returns (i: nat)
      ensures i == FindTask(tasks, id)
    {
      i := 0;
      while i < |tasks| && !(tasks[i].active && tasks[i].id == id)
        invariant i <= |tasks|
        invariant FindTask(tasks, id) == FindTask(tasks, id, i)
      {
        i := i + 1;
      }
    }

    method ResourceIdInUse(c: nat, id: nat) returns (used: bool)
      requires c < |clients|
      ensures used == IdInUse(clients[c], id)
    {
      var cl := clients[c];
      for k := 0 to |cl.files|
        invariant forall j | 0 <= j < k :: !(cl.files[j].id == id && !IdleFile(cl.files[j]))
      {
        if cl.files[k].registered && cl.files[k].id == id {
          return true;
        }
        if cl.files[k].id == id && (cl.files[k].inFlight != 0 || cl.files[k].closing) {
          return true;
        }
      }
      for b := 0 to |cl.buffers|
        invariant forall j | 0 <= j < b :: !(cl.buffers[j].id == id && !IdleBuffer(cl.buffers[j]))
      {
        if cl.buffers[b].registered && cl.buffers[b].id == id {
          return true;
        }
        if cl.buffers[b].id == id && (cl.buffers[b].inFlight != 0 || cl.buffers[b].closing) {
          return true;
        }
      }
      used := false;
    }

    method AllocateResourceId(c: nat) returns (id: nat)
      requires c < |clients|
      modifies this`clients
      ensures
        var a := Allocate(old(clients)[c]);
        id == a.id && clients == old(clients)[c := old(clients)[c].(nextId := a.next)]
    {
      var attempt := 0;
      var cl := clients[c];
      var attempts := |cl.files| + |cl.buffers|;
      while attempt < attempts
        invariant attempt <= attempts
        invariant |clients| == |old(clients)|
        invariant clients == old(clients)[c := cl.(nextId := clients[c].nextId)]
        invariant Allocate(cl) == AllocateFrom(cl, clients[c].nextId, attempts - attempt)
      {
        var candidate := clients[c].nextId;
        clients := clients[c := clients[c].(nextId := Wrap32(candidate + 1))];
        if candidate != 0 {
          var used := ResourceIdInUse(c, candidate);
          assert used == IdInUse(cl, candidate);
          if !used {
            return candidate;
          }
        }
        attempt := attempt + 1;
      }
      id := 0;
    }
  
    // ---- small effects -----------------------------------------------------------------

    /** close(2) */
    method CloseFd(fd: Fd)
      modifies this`ledger, this`closed
      ensures ledger == old(ledger)[fd := Closed] && closed == old(closed) + [fd]
    {
      ledger, closed := ledger[fd := Closed], closed + [fd];
    }

    /** iouringd_ring_update_registered_file */
    method UpdateRegisteredFile(n: nat, fd: Option<Fd>, error: nat) returns (rc: int)
      modifies this`table
      ensures rc == (if error == 0 then 0 else -1)
      ensures table == if error != 0 then old(table)
                       else if fd.Some? then old(table)[n := fd.value] else old(table) - {n}
    {
      if error != 0 {
        return -1;
      }
      table := if fd.Some? then table[n := fd.value] else table - {n};
      rc := 0;
    }

    method QueueRecord(c: nat, r: Record, fits: bool) returns (rc: int)
      requires c < |logs|
      modifies this`logs
      ensures rc == (if fits then 0 else -1)
      ensures logs == if fits then old(logs)[c := old(logs)[c] + [r]] else old(logs)
    {
      if !fits {
        return -1;
      }
      logs := logs[c := logs[c] + [r]];
      rc := 0;
    }

    method FinishClientRequest(c: nat)
      requires c < |clients|
      modifies this`clients
      ensures clients == old(clients)[c := old(clients)[c].(request := None)]
    {
      clients := clients[c := clients[c].(request := None)];
    }

    method ClearFileSlot(c: nat, k: nat)
      requires c < |clients| && k < |clients[c].files|
      modifies this`clients, this`ledger, this`closed
      ensures Abs() == ClearFile(old(Abs()), c, k)
    {
      var fd := clients[c].files[k].fd;
      if fd.Some? {
        CloseFd(fd.value);
      }
      clients := clients[c := SetFile(clients[c], k, FREE_FILE)];
    }

    method TryReleaseFileSlot(c: nat, k: nat, updates: bool) returns (rc: int)
      requires c < |clients| && k < |clients[c].files|
      modifies this`clients, this`ledger, this`closed, this`table
      ensures Did(rc, TryReleaseFile(g, old(Abs()), c, k, updates))
    {
      var f := clients[c].files[k];
      if !f.registered {
        if f.inFlight == 0 {
          ClearFileSlot(c, k);
        }
        return 0;
      }
      if f.inFlight != 0 || !f.closing {
        return 0;
      }
      rc := UpdateRegisteredFile(GlobalFile(g, c, k), None, if updates then 0 else EIO);
      if rc != 0 {
        return -1;
      }
      ClearFileSlot(c, k);
    }

    method TryReleaseBufferSlot(c: nat, b: nat)
      requires c < |clients| && b < |clients[c].buffers|
      modifies this`clients
      ensures Abs() == TryReleaseBuffer(old(Abs()), c, b)
    {
      var x := clients[c].buffers[b];
      if !x.registered {
        if x.inFlight == 0 {
          clients := clients[c := SetBuffer(clients[c], b, FREE_BUFFER)];
        }
        return;
      }
      if x.inFlight != 0 || !x.closing {
        return;
      }
      clients := clients[c := SetBuffer(clients[c], b, FREE_BUFFER)];
    }

    // ---- control requests -----------------------------------------------------------------

    method ReplyAndFinish(c: nat, id: nat, status: int, o: Oracle) returns (rc: int)
      requires c < |clients| == |logs|
      modifies this`clients, this`logs
      ensures Did(rc, ReplyResource(old(Abs()), c, id, status, o))
    {
      rc := QueueRecord(c, ResourceResult(id, status), o.fits);
      if rc != 0 {
        return -1;
      }
      FinishClientRequest(c);
      rc := 1;
    }

    /** The pending fd is closed and the registration refused. */
    method RefuseFd(c: nat, fd: Fd, status: int, o: Oracle) returns (rc: int)
      requires c < |clients| == |logs|
      modifies this`clients, this`logs, this`ledger, this`closed
      ensures
        var s := old(Abs());
        Did(rc, ReplyResource(DaemonState.CloseFd(SetClient(s, c, s.clients[c].(received := None)), fd), c, 0, status, o))
    {
      CloseFd(fd);
      clients := clients[c := clients[c].(received := None)];
      rc := ReplyAndFinish(c, 0, status, o);
    }

    /** The pending fd moves into slot `k`. */
    method InstallFd(c: nat, k: nat, fd: Fd, id: nat, o: Oracle) returns (rc: int)
      requires c < |clients| == |logs| && k < |clients[c].files| && clients[c].received == Some(fd)
      modifies this`clients, this`logs, this`ledger
      ensures
        var s := old(Abs());
        var cl := SetFile(s.clients[c].(received := None), k, FileSlot(id, Some(fd), 0, true, false));
        Did(rc, ReplyResource(Move(SetClient(s, c, cl), fd, InSlot(c, k)), c, id, 0, o))
    {
      clients := clients[c := SetFile(clients[c], k, FileSlot(id, clients[c].received, 0, true, false))];
      clients := clients[c := clients[c].(received := None)];
      ledger := ledger[fd := InSlot(c, k)];
      assert clients == old(clients)[c := SetFile(old(clients)[c].(received := None), k,
                                                  FileSlot(id, Some(fd), 0, true, false))];
      rc := ReplyAndFinish(c, id, 0, o);
    }

    method DispatchRegisterFd(c: nat, o: Oracle) returns (rc: int)
      requires Valid() && c < |clients|
      modifies this
      ensures Did(rc, DaemonSteps.DispatchRegisterFd(g, old(Abs()), c, o))
    {
      hide Allocate, ReplyResource;
      ghost var s := Abs();
      var cl := clients[c];
      if cl.received.None? {
        rc := ReplyAndFinish(c, 0, -EINVAL, o);
        return;
      }
      var fd := cl.received.value;
      var k := FindFreeFileSlot(c);
      if k == |cl.files| {
        rc := RefuseFd(c, fd, -EAGAIN, o);
        return;
      }
      var id := AllocateResourceId(c);
      ghost var taken := cl.(nextId := Allocate(cl).next);
      SetTwice(s, c, taken, taken.(received := None));
      if id == 0 {
        rc := RefuseFd(c, fd, -EOVERFLOW, o);
        return;
      }
      var updated := UpdateRegisteredFile(GlobalFile(g, c, k), Some(fd), o.update);
      if updated != 0 {
        rc := RefuseFd(c, fd, -(o.update as int), o);
        return;
      }
      SetTwice(s, c, taken, SetFile(taken.(received := None), k, FileSlot(id, Some(fd), 0, true, false)));
      rc := InstallFd(c, k, fd, id, o);
    }

    method DispatchRegisterBuffer(c: nat, data: seq<Byte>, o: Oracle) returns (rc: int)
      requires Valid() && c < |clients|
      modifies this`clients, this`logs
      ensures Did(rc, DaemonSteps.DispatchRegisterBuffer(old(Abs()), c, data, o))
    {
      hide Allocate;
      var cl := clients[c];
      var b := FindFreeBufferSlot(c);
      if b == |cl.buffers| {
        rc := ReplyAndFinish(c, 0, -EAGAIN, o);
        return;
      }
      var id := AllocateResourceId(c);
      if id == 0 {
        rc := ReplyAndFinish(c, 0, -EOVERFLOW, o);
        return;
      }
      clients := clients[c := SetBuffer(clients[c], b, BufferSlot(id, 0, true, false, |data|))];
      assert clients == old(clients)[c := SetBuffer(cl.(nextId := Allocate(cl).next), b,
                                                    BufferSlot(id, 0, true, false, |data|))];
      rc := ReplyAndFinish(c, id, 0, o);
    }

    method ReleaseFile(c: nat, k: nat, id: nat, o: Oracle) returns (rc: int)
      requires c < |clients| == |logs| && k < |clients[c].files|
      requires clients[c].files[k].registered && clients[c].files[k].inFlight == 0
      modifies this`clients, this`logs, this`ledger, this`closed, this`table
      ensures Did(rc, if o.update != 0 then Stopped else ReplyResource(DropFile(g, old(Abs()), c, k), c, id, 0, o))
    {
      SetFileTwice(clients[c], k, clients[c].files[k].(closing := true), FREE_FILE);
      clients := clients[c := SetFile(clients[c], k, clients[c].files[k].(closing := true))];
      rc := TryReleaseFileSlot(c, k, o.update == 0);
      if rc < 0 {
        return;
      }
      assert clients == old(clients)[c := SetFile(old(clients)[c], k, FREE_FILE)];
      rc := ReplyAndFinish(c, id, 0, o);
    }

    method ReleaseBuffer(c: nat, b: nat, id: nat, o: Oracle) returns (rc: int)
      requires c < |clients| == |logs| && b < |clients[c].buffers|
      requires clients[c].buffers[b].registered && clients[c].buffers[b].inFlight == 0
      modifies this`clients, this`logs
      ensures
        var s := old(Abs());
        Did(rc, ReplyResource(SetClient(s, c, SetBuffer(s.clients[c], b, FREE_BUFFER)), c, id, 0, o))
    {
      SetBufferTwice(clients[c], b, clients[c].buffers[b].(closing := true), FREE_BUFFER);
      clients := clients[c := SetBuffer(clients[c], b, clients[c].buffers[b].(closing := true))];
      TryReleaseBufferSlot(c, b);
      assert clients == old(clients)[c := SetBuffer(old(clients)[c], b, FREE_BUFFER)];
      rc := ReplyAndFinish(c, id, 0, o);
    }

    method DispatchRelease(c: nat, id: nat, o: Oracle) returns (rc: int)
      requires Valid() && c < |clients|
      modifies this`clients, this`logs, this`ledger, this`closed, this`table
      ensures Did(rc, DaemonSteps.DispatchRelease(g, old(Abs()), c, id, o))
    {
      hide ReplyResource, DropFile;
      var cl := clients[c];
      if id == 0 {
        rc := ReplyAndFinish(c, 0, -EINVAL, o);
        return;
      }
      var k := FindFileSlot(c, id);
      if k < |cl.files| {
        if cl.files[k].inFlight != 0 {
          rc := ReplyAndFinish(c, 0, -EBUSY, o);
          return;
        }
        rc := ReleaseFile(c, k, id, o);
        return;
      }
      var b := FindBufferSlot(c, id);
      if b < |cl.buffers| {
        if cl.buffers[b].inFlight != 0 {
          rc := ReplyAndFinish(c, 0, -EBUSY, o);
          return;
        }
        rc := ReleaseBuffer(c, b, id, o);
        return;
      }
      rc := ReplyAndFinish(c, 0, -ENOENT, o);
    }
  
    // ---- task submission ----------------------------------------------------------------------

    /** iouringd_reject_submit, then the request is done with. */
    method RejectAndFinish(c: nat, error: nat, o: Oracle) returns (rc: int)
      requires c < |clients| == |logs|
      modifies this`clients, this`logs, this`rejected
      ensures Did(rc, Reject(old(Abs()), c, error, o))
    {
      rejected := rejected + 1;
      rc := QueueRecord(c, SubmitResult(0, -(error as int)), o.fits);
      if rc != 0 {
        return -1;
      }
      FinishClientRequest(c);
      rc := 1;
    }

    method ClearTaskSlot(i: nat)
      requires i < |tasks|
      modifies this`tasks
      ensures tasks == old(tasks)[i := IDLE_TASK]
    {
      tasks := tasks[i := IDLE_TASK];
    }

    /** iouringd_ring_submit_*: an accepted operation works in slot `i` and on `fd`. */
    method RingSubmit(i: nat, id: nat, ghost fd: Option<Fd>, error: nat) returns (rc: int)
      modifies this`ops
      ensures rc == (if error == 0 then 0 else -1)
      ensures ops == if error == 0 then old(ops)[id := Op(i, fd)] else old(ops)
    {
      if error != 0 {
        return -1;
      }
      ops := ops[id := Op(i, fd)];
      rc := 0;
    }

    /** Count the task in slot `i`. */
    method CountTask(c: nat, i: nat)
      requires c < |clients| && i < |tasks|
      modifies this`clients, this`nextTaskId, this`outstanding, this`outstandingCredit, this`accepted
      ensures
        var credit := if tasks[i].credit then 1 else 0;
        var cl := old(clients)[c];
        && clients == old(clients)[c := cl.(outstanding := cl.outstanding + 1,
                                            outstandingCredit := cl.outstandingCredit + credit)]
        && nextTaskId == old(nextTaskId) + 1
        && outstanding == old(outstanding) + 1
        && outstandingCredit == old(outstandingCredit) + credit
        && accepted == old(accepted) + 1
    {
      nextTaskId := nextTaskId + 1;
      outstanding := outstanding + 1;
      clients := clients[c := clients[c].(outstanding := clients[c].outstanding + 1)];
      if tasks[i].credit {
        outstandingCredit := outstandingCredit + 1;
        clients := clients[c := clients[c].(outstandingCredit := clients[c].outstandingCredit + 1)];
      }
      accepted := accepted + 1;
    }

    /** The ring has the task in slot `i`: count it and tell the client. */
    method AcceptAndFinish(c: nat, i: nat, o: Oracle) returns (rc: int)
      requires c < |clients| == |logs| && i < |tasks|
      modifies this`clients, this`logs, this`nextTaskId, this`outstanding, this`outstandingCredit, this`accepted
      ensures Did(rc, Acknowledge(old(Abs()), c, i, o))
    {
      CountTask(c, i);
      rc := QueueRecord(c, SubmitResult(tasks[i].id, 0), o.fits);
      if rc != 0 {
        return -1;
      }
      FinishClientRequest(c);
      assert clients == old(clients)[c := clients[c]];
      rc := 1;
    }

    /** A fresh record in task slot `i`. */
    method StartTask(c: nat, i: nat, kind: Kind)
      requires c < |clients| && i < |tasks|
      modifies this`tasks
      ensures tasks == old(tasks)[i := NewTask(old(Abs()), c, kind)]
    {
      ClearTaskSlot(i);
      tasks := tasks[i := tasks[i].(active := true)];
      tasks := tasks[i := tasks[i].(credit := kind != KCancel)];
      tasks := tasks[i := tasks[i].(id := nextTaskId)];
      tasks := tasks[i := tasks[i].(kind := kind)];
      tasks := tasks[i := tasks[i].(client := c)];
      tasks := tasks[i := tasks[i].(generation := clients[c].generation)];
    }

    /** The submission failed: the task slot is given up. */
    method UndoTask(c: nat, i: nat, error: nat, o: Oracle) returns (rc: int)
      requires c < |clients| == |logs| && i < |tasks|
      modifies this`clients, this`logs, this`rejected, this`tasks
      ensures Did(rc, RejectAt(old(Abs()), c, i, error, o))
    {
      ClearTaskSlot(i);
      rc := RejectAndFinish(c, error, o);
    }

    /** NOP, TIMEOUT and CANCEL. */
    method DispatchPlain(c: nat, r: Request, o: Oracle) returns (rc: int)
      requires Valid() && c < |clients| && !IsControl(r)
      modifies this
      ensures Did(rc, DaemonSteps.DispatchPlain(old(Abs()), c, r, o))
    {
      hide Reject, RejectAt, Admit, Acknowledge;
      ghost var s := Abs();
      if nextTaskId >= TASK_ID_RESERVED {
        rc := RejectAndFinish(c, EOVERFLOW, o);
        return;
      }
      var i := FindFreeTaskSlot();
      if i == |tasks| {
        rc := RejectAndFinish(c, EAGAIN, o);
        return;
      }
      StartTask(c, i, KindOf(r));
      var submitted := RingSubmit(i, tasks[i].id, None, o.submit);
      if submitted != 0 {
        UndoneTask(s, c, i, tasks[i], o.submit, o);
        rc := UndoTask(c, i, o.submit, o);
        return;
      }
      AdmitAcknowledges(s, c, clients[c], i, tasks[i], None, o);
      assert clients == s.clients[c := clients[c]];
      rc := AcceptAndFinish(c, i, o);
    }
  
    /** A slot that was reserved for a result is free again, and its id may be given anew. */
    method UndoReservation(c: nat, k: nat, id: nat)
      requires c < |clients| && k < |clients[c].files| && clients[c].files[k].fd.None? && id != 0
      modifies this`clients, this`ledger, this`closed
      ensures clients == old(clients)[c := SetFile(old(clients)[c].(nextId := id), k, FREE_FILE)]
      ensures ledger == old(ledger) && closed == old(closed)
    {
      ghost var cl := clients[c];
      if clients[c].files[k].inFlight != 0 {
        clients := clients[c := SetFile(clients[c], k, clients[c].files[k].(inFlight := clients[c].files[k].inFlight - 1))];
      }
      SetFileTwice(cl, k, clients[c].files[k], FREE_FILE);
      ClearFileSlot(c, k);
      clients := clients[c := clients[c].(nextId := id)];
    }

    /** A submission that had reserved result slot `k` failed: slot, id and task are given up. */
    method UndoReservedTask(c: nat, k: nat, id: nat, i: nat, error: nat, o: Oracle) returns (rc: int)
      requires c < |clients| == |logs| && k < |clients[c].files| && i < |tasks|
      requires clients[c].files[k].fd.None? && id != 0
      modifies this`clients, this`logs, this`rejected, this`tasks, this`ledger, this`closed
      ensures
        var s := old(Abs());
        Did(rc, RejectAt(SetClient(s, c, SetFile(s.clients[c].(nextId := id), k, FREE_FILE)), c, i, error, o))
    {
      hide RejectAt;
      UndoReservation(c, k, id);
      rc := UndoTask(c, i, error, o);
    }

    /** Result slot `k` is reserved under `id` and the OPENAT goes to the ring, or all is undone. */
    method SubmitOpenat(c: nat, r: Request, k: nat, id: nat, i: nat, o: Oracle) returns (rc: int)
      requires c < |clients| == |logs| && r.Openat? && k < |clients[c].files| && i < |tasks| && id != 0
      modifies this
      ensures
        var s := old(Abs());
        var cl := s.clients[c];
        var t := NewTask(s, c, KOpenat).(result := k, resultId := id, length := |r.data|);
        Did(rc, if o.submit != 0
                then RejectAt(SetClient(s, c, SetFile(cl.(nextId := id), k, FREE_FILE)), c, i, o.submit, o)
                else Admit(s, c, Reserve(cl, k, id), i, t, None, o))
    {
      hide Reject, RejectAt, Admit, Acknowledge, SetFile;
      ghost var s, cl := Abs(), clients[c];
      StartTask(c, i, KOpenat);
      tasks := tasks[i := tasks[i].(result := k, resultId := id, length := |r.data|)];
      ghost var t := NewTask(s, c, KOpenat).(result := k, resultId := id, length := |r.data|);
      assert tasks == s.tasks[i := t];
      ReservedSlot(cl, k, id);
      clients := clients[c := Reserve(clients[c], k, id)];
      var submitted := RingSubmit(i, tasks[i].id, None, o.submit);
      if submitted != 0 {
        UndoneReservation(s, c, k, id, i, t, o.submit, o);
        rc := UndoReservedTask(c, k, id, i, o.submit, o);
      } else {
        AdmitAcknowledges(s, c, Reserve(cl, k, id), i, t, None, o);
        rc := AcceptAndFinish(c, i, o);
      }
    }

    method DispatchOpenat(c: nat, r: Request, o: Oracle) returns (rc: int)
      requires Valid() && c < |clients| && r.Openat?
      modifies this
      ensures Did(rc, DaemonSteps.DispatchOpenat(g, old(Abs()), c, r, o))
    {
      hide Reject, RejectAt, Admit, Allocate;
      ghost var s := Abs();
      var cl := clients[c];
      if nextTaskId >= TASK_ID_RESERVED {
        rc := RejectAndFinish(c, EOVERFLOW, o);
        return;
      }
      var k := FindFreeFileSlot(c);
      if k == |cl.files| {
        rc := RejectAndFinish(c, EAGAIN, o);
        return;
      }
      var id := AllocateResourceId(c);
      ghost var taken := cl.(nextId := Allocate(cl).next);
      if id == 0 {
        rc := RejectAndFinish(c, EOVERFLOW, o);
        return;
      }
      var i := FindFreeTaskSlot();
      if i == |tasks| {
        rc := RejectAndFinish(c, EAGAIN, o);
        return;
      }
      SetTwice(s, c, taken, SetFile(cl.(nextId := id), k, FREE_FILE));
      AdmitTwice(s, c, taken, Reserve(taken, k, id), i,
                 NewTask(s, c, KOpenat).(result := k, resultId := id, length := |r.data|), None, o);
      rc := SubmitOpenat(c, r, k, id, i, o);
    }

    /** A CLOSE was not submitted: its file is put back, in the table too. */
    method UndoClose(ghost s: State, c: nat, k: nat, i: nat, ghost t: Task, ghost x: FileSlot, f: FileSlot, o: Oracle)
      returns (rc: int)
      requires c < |s.clients| == |s.logs| && k < |s.clients[c].files| && i < |s.tasks|
      requires s.clients[c].files[k] == f && f.fd.Some?
      requires Abs() == SetClient(s, c, SetFile(s.clients[c], k, x)).(tasks := s.tasks[i := t],
                                                                      table := s.table - {GlobalFile(g, c, k)})
      modifies this`clients, this`logs, this`rejected, this`tasks, this`table
      ensures !o.restores ==> rc < 0
      ensures o.restores ==>
                Did(rc, RejectAt(s.(table := s.table[GlobalFile(g, c, k) := f.fd.value]), c, i, o.submit, o))
    {
      hide RejectAt, GlobalFile;
      UndoneClose(s, GlobalFile(g, c, k), c, k, i, t, x, o);
      clients := clients[c := SetFile(clients[c], k, f)];
      rc := UpdateRegisteredFile(GlobalFile(g, c, k), f.fd, if o.restores then 0 else EIO);
      if rc != 0 {
        return -1;
      }
      rc := UndoTask(c, i, o.submit, o);
    }

    /** The ring has the CLOSE, and with it the fd. */
    method HandOverClose(ghost s: State, c: nat, ghost cl: Client, i: nat, ghost t: Task, fd: Option<Fd>, o: Oracle)
      returns (rc: int)
      requires c < |s.clients| == |s.logs| && i < |s.tasks| && fd.Some?
      requires Abs() == Placed(s, c, cl, i, t, fd)
      modifies this
      ensures Did(rc, Admit(Move(s, fd.value, CloseOp(i)), c, cl, i, t, fd, o))
    {
      hide Admit, Acknowledge;
      ledger := ledger[fd.value := CloseOp(i)];
      AdmitAcknowledges(Move(s, fd.value, CloseOp(i)), c, cl, i, t, fd, o);
      rc := AcceptAndFinish(c, i, o);
    }

    method StartClose(c: nat, k: nat, i: nat, id: nat, fd: Option<Fd>)
      requires c < |clients| && k < |clients[c].files| && i < |tasks|
      modifies this`clients, this`tasks
      ensures tasks == old(tasks)[i := NewTask(old(Abs()), c, KClose).(file := k, resourceId := id, closeFd := fd)]
      ensures clients == old(clients)[c := SetFile(old(clients)[c], k, FileSlot(id, None, 1, false, true))]
    {
      StartTask(c, i, KClose);
      tasks := tasks[i := tasks[i].(file := k)];
      tasks := tasks[i := tasks[i].(resourceId := id)];
      tasks := tasks[i := tasks[i].(closeFd := fd)];
      clients := clients[c := SetFile(clients[c], k, clients[c].files[k].(fd := None, registered := false))];
      clients := clients[c := SetFile(clients[c], k, clients[c].files[k].(id := id, closing := true, inFlight := 1))];
      SetFileTwice(old(clients)[c], k, old(clients)[c].files[k].(fd := None, registered := false), clients[c].files[k]);
    }

    /** The file in slot `k`, out of the table by now, goes to the ring to be closed, or all
        is put back. */
    method SubmitClose(c: nat, k: nat, i: nat, id: nat, f: FileSlot, o: Oracle) returns (rc: int)
      requires c < |clients| == |logs| && k < |clients[c].files| && i < |tasks|
      requires clients[c].files[k] == f && f.fd.Some? && GlobalFile(g, c, k) !in table
      modifies this
      ensures o.submit != 0 && !o.restores ==> rc < 0
      ensures o.submit != 0 && o.restores ==>
                Did(rc, RejectAt(old(Abs()).(table := old(table)[GlobalFile(g, c, k) := f.fd.value]), c, i, o.submit, o))
      ensures o.submit == 0 ==>
                var s := old(Abs());
                Did(rc, Admit(Move(s, f.fd.value, CloseOp(i)), c,
                              SetFile(s.clients[c], k, FileSlot(id, None, 1, false, true)), i,
                              NewTask(s, c, KClose).(file := k, resourceId := id, closeFd := f.fd), f.fd, o))
    {
      hide RejectAt, Admit, Acknowledge, SetFile, GlobalFile;
      ghost var s, cl := Abs(), clients[c];
      ghost var x := FileSlot(id, None, 1, false, true);
      StartClose(c, k, i, id, f.fd);
      ghost var t := NewTask(s, c, KClose).(file := k, resourceId := id, closeFd := f.fd);
      SlotLengths(cl, k, x);
      assert table - {GlobalFile(g, c, k)} == table;
      var submitted := RingSubmit(i, tasks[i].id, f.fd, o.submit);
      if submitted != 0 {
        rc := UndoClose(s, c, k, i, t, x, f, o);
      } else {
        rc := HandOverClose(s, c, SetFile(cl, k, x), i, t, f.fd, o);
      }
    }

    method DispatchClose(c: nat, id: nat, o: Oracle) returns (rc: int)
      requires Valid() && c < |clients|
      modifies this
      ensures Did(rc, DaemonSteps.DispatchClose(g, old(Abs()), c, id, o))
    {
      hide Reject, RejectAt, Admit;
      var cl := clients[c];
      var k := FindFileSlot(c, id);
      if k == |cl.files| || cl.files[k].closing {
        rc := RejectAndFinish(c, ENOENT, o);
        return;
      }
      if cl.files[k].inFlight != 0 || cl.files[k].fd.None? {
        rc := RejectAndFinish(c, EBUSY, o);
        return;
      }
      if nextTaskId >= TASK_ID_RESERVED {
        rc := RejectAndFinish(c, EOVERFLOW, o);
        return;
      }
      var i := FindFreeTaskSlot();
      if i == |tasks| {
        rc := RejectAndFinish(c, EAGAIN, o);
        return;
      }
      rc := UpdateRegisteredFile(GlobalFile(g, c, k), None, o.update);
      if rc != 0 {
        return -1;
      }
      ghost var fd := cl.files[k].fd.value;
      assert table[GlobalFile(g, c, k) := fd] == old(table)[GlobalFile(g, c, k) := fd];
      rc := SubmitClose(c, k, i, id, cl.files[k], o);
    }

    /** The buffer a request names, and the errno if it may not be used. */
    method CheckBuffer(c: nat, r: Request) returns (error: nat, b: nat)
      requires c < |clients|
      ensures error == BufferError(clients[c], r)
      ensures error == 0 && (r.SockReadFixed? || r.SockWriteFixed?) ==>
                b == FindBuffer(clients[c].buffers, r.buffer) < |clients[c].buffers|
    {
      error, b := 0, 0;
      if r.SockReadFixed? || r.SockWriteFixed? {
        b := FindBufferSlot(c, r.buffer);
        if b == |clients[c].buffers| || clients[c].buffers[b].closing {
          error := ENOENT;
        } else if r.SockWriteFixed? && r.length > clients[c].buffers[b].validLength {
          error := EINVAL;
        }
      }
    }

    /** The task in slot `i` holds the file in slot `k`. */
    method StartFileTask(c: nat, i: nat, r: Request, k: nat)
      requires c < |clients| && i < |tasks| && k < |clients[c].files| && IsFileOp(r)
      modifies this`clients, this`tasks
      ensures tasks == old(tasks)[i := FileTask(old(Abs()), c, r, k)]
      ensures clients == old(clients)[c := PinFile(old(clients)[c], k)]
    {
      StartTask(c, i, KindOf(r));
      tasks := tasks[i := tasks[i].(file := k)];
      tasks := tasks[i := tasks[i].(resourceId := r.resource)];
      tasks := tasks[i := tasks[i].(length := LengthOf(r))];
      clients := clients[c := SetFile(clients[c], k, clients[c].files[k].(inFlight := clients[c].files[k].inFlight + 1))];
    }

    /** The file in slot `k` is let go again. */
    method UnpinFileSlot(c: nat, k: nat)
      requires c < |clients| && k < |clients[c].files| && clients[c].files[k].inFlight > 0
      modifies this`clients
      ensures clients == old(clients)[c := SetFile(old(clients)[c], k, Unpin(old(clients)[c].files[k]))]
    {
      clients := clients[c := SetFile(clients[c], k, clients[c].files[k].(inFlight := clients[c].files[k].inFlight - 1))];
    }

    /** The task and its pin on file slot `k` are undone. */
    method UndoFileTask(ghost s: State, c: nat, k: nat, i: nat, ghost t: Task, error: nat, o: Oracle) returns (rc: int)
      requires c < |s.clients| == |s.logs| && k < |s.clients[c].files| && i < |s.tasks|
      requires Abs() == SetClient(s, c, PinFile(s.clients[c], k)).(tasks := s.tasks[i := t])
      modifies this`clients, this`logs, this`rejected, this`tasks
      ensures Did(rc, RejectAt(s, c, i, error, o))
    {
      hide RejectAt;
      PinUnpin(s.clients[c], k);
      assert s.clients[c := PinFile(s.clients[c], k)][c := s.clients[c]] == s.clients;
      UnpinFileSlot(c, k);
      UndoneTask(s, c, i, t, error, o);
      rc := UndoTask(c, i, error, o);
    }

    /** An operation on file slot `k` alone. */
    method SubmitOnFile(ghost s: State, c: nat, k: nat, i: nat, ghost t: Task, ghost fd: Option<Fd>, o: Oracle) returns (rc: int)
      requires c < |s.clients| == |s.logs| && k < |s.clients[c].files| && i < |s.tasks|
      requires Abs() == SetClient(s, c, PinFile(s.clients[c], k)).(tasks := s.tasks[i := t])
      modifies this
      ensures o.submit != 0 ==> Did(rc, RejectAt(s, c, i, o.submit, o))
      ensures o.submit == 0 ==> Did(rc, Admit(s, c, PinFile(s.clients[c], k), i, t, fd, o))
    {
      hide RejectAt, Admit, Acknowledge, PinFile;
      var submitted := RingSubmit(i, tasks[i].id, fd, o.submit);
      if submitted != 0 {
        rc := UndoFileTask(s, c, k, i, t, o.submit, o);
      } else {
        AdmitAcknowledges(s, c, PinFile(s.clients[c], k), i, t, fd, o);
        rc := AcceptAndFinish(c, i, o);
      }
    }

    /** An operation on file slot `k` and buffer slot `b`. */
    method SubmitFixed(ghost s: State, c: nat, k: nat, b: nat, i: nat, ghost t: Task, id: nat, ghost fd: Option<Fd>, o: Oracle)
      returns (rc: int)
      requires c < |s.clients| == |s.logs| && i < |s.tasks|
      requires k < |s.clients[c].files| && b < |s.clients[c].buffers|
      requires Abs() == SetClient(s, c, PinFile(s.clients[c], k)).(tasks := s.tasks[i := t])
      modifies this
      ensures o.submit != 0 ==> Did(rc, RejectAt(s, c, i, o.submit, o))
      ensures o.submit == 0 ==>
                Did(rc, Admit(s, c, PinBuffer(PinFile(s.clients[c], k), b), i, t.(buffer := b, bufferId := id), fd, o))
    {
      hide RejectAt, Admit, Acknowledge, PinFile;
      ghost var pinned := PinFile(s.clients[c], k);
      ghost var t' := t.(buffer := b, bufferId := id);
      PinLengths(s.clients[c], k);
      tasks := tasks[i := tasks[i].(buffer := b, bufferId := id)];
      assert tasks == s.tasks[i := t'];
      var pins := clients[c].buffers[b].inFlight;
      clients := clients[c := SetBuffer(clients[c], b, clients[c].buffers[b].(inFlight := pins + 1))];
      assert clients == s.clients[c := PinBuffer(pinned, b)];
      var submitted := RingSubmit(i, tasks[i].id, fd, o.submit);
      if submitted != 0 {
        clients := clients[c := SetBuffer(clients[c], b, clients[c].buffers[b].(inFlight := pins))];
        SetBufferTwice(pinned, b, pinned.buffers[b].(inFlight := pins + 1), pinned.buffers[b]);
        assert SetBuffer(pinned, b, pinned.buffers[b]).buffers == pinned.buffers;
        assert clients == s.clients[c := pinned];
        rc := UndoFileTask(s, c, k, i, t', o.submit, o);
      } else {
        AdmitAcknowledges(s, c, PinBuffer(pinned, b), i, t', fd, o);
        rc := AcceptAndFinish(c, i, o);
      }
    }
  
    /** The ACCEPT was not submitted: its pin, its reservation and its task are undone. */
    method UndoAccept(ghost s: State, c: nat, k: nat, k': nat, id: nat, i: nat, ghost t: Task, ghost next: nat, o: Oracle)
      returns (rc: int)
      requires c < |s.clients| == |s.logs| && i < |s.tasks| && k != k' && id != 0
      requires k < |s.clients[c].files| && k' < |s.clients[c].files|
      requires Abs() == SetClient(s, c, Reserve(PinFile(s.clients[c], k).(nextId := next), k', id)).(
                          tasks := s.tasks[i := t])
      modifies this`clients, this`logs, this`rejected, this`tasks, this`ledger, this`closed
      ensures Did(rc, RejectAt(SetClient(s, c, SetFile(s.clients[c].(nextId := id), k', FREE_FILE)), c, i, o.submit, o))
    {
      hide RejectAt;
      UndoneAccept(s.clients[c], k, k', id, next);
      ghost var cl' := SetFile(s.clients[c].(nextId := id), k', FREE_FILE);
      UnpinFileSlot(c, k);
      UndoReservation(c, k', id);
      assert clients == s.clients[c := cl'];
      UndoneTask(SetClient(s, c, cl'), c, i, t, o.submit, o);
      rc := UndoTask(c, i, o.submit, o);
    }

    /** No id is left for the accepted connection. */
    method RefuseAccept(ghost s: State, c: nat, k: nat, i: nat, ghost t: Task, ghost next: nat, o: Oracle) returns (rc: int)
      requires c < |s.clients| == |s.logs| && k < |s.clients[c].files| && i < |s.tasks|
      requires Abs() == SetClient(s, c, PinFile(s.clients[c], k).(nextId := next)).(tasks := s.tasks[i := t])
      modifies this`clients, this`logs, this`rejected, this`tasks
      ensures Did(rc, RejectAt(SetClient(s, c, s.clients[c].(nextId := next)), c, i, EOVERFLOW, o))
    {
      hide RejectAt;
      ghost var cl := s.clients[c].(nextId := next);
      SetTwice(s, c, cl, PinFile(cl, k));
      rc := UndoFileTask(SetClient(s, c, cl), c, k, i, t, EOVERFLOW, o);
    }

    /** The slot for the accepted connection is reserved and the ACCEPT submitted. */
    method SubmitReserved(ghost s: State, c: nat, k: nat, k': nat, id: nat, i: nat, ghost t: Task,
                          ghost next: nat, ghost fd: Option<Fd>, o: Oracle) returns (rc: int)
      requires c < |s.clients| == |s.logs| && i < |s.tasks| && k != k' && id != 0
      requires k < |s.clients[c].files| && k' < |s.clients[c].files|
      requires Abs() == SetClient(s, c, PinFile(s.clients[c], k).(nextId := next)).(tasks := s.tasks[i := t])
      modifies this
      ensures o.submit != 0 ==>
                Did(rc, RejectAt(SetClient(s, c, SetFile(s.clients[c].(nextId := id), k', FREE_FILE)), c, i, o.submit, o))
      ensures o.submit == 0 ==>
                Did(rc, Admit(s, c, Reserve(PinFile(s.clients[c], k).(nextId := next), k', id), i,
                              t.(result := k', resultId := id), fd, o))
    {
      hide RejectAt, Admit, Acknowledge, PinFile, Reserve;
      PinLengths(s.clients[c], k);
      ghost var t' := t.(result := k', resultId := id);
      clients := clients[c := Reserve(clients[c], k', id)];
      tasks := tasks[i := tasks[i].(result := k', resultId := id)];
      assert tasks == s.tasks[i := t'];
      var submitted := RingSubmit(i, tasks[i].id, fd, o.submit);
      if submitted != 0 {
        rc := UndoAccept(s, c, k, k', id, i, t', next, o);
      } else {
        ghost var cl' := Reserve(PinFile(s.clients[c], k).(nextId := next), k', id);
        assert clients == s.clients[c := cl'];
        assert Abs() == Placed(s, c, cl', i, t', fd);
        AdmitAcknowledges(s, c, cl', i, t', fd, o);
        rc := AcceptAndFinish(c, i, o);
      }
    }

    /** An ACCEPT on file slot `k`. */
    method SubmitAccept(ghost s: State, c: nat, k: nat, i: nat, ghost t: Task, ghost fd: Option<Fd>, o: Oracle) returns (rc: int)
      requires c < |s.clients| == |s.logs| && k < |s.clients[c].files| && i < |s.tasks|
      requires Abs() == SetClient(s, c, PinFile(s.clients[c], k)).(tasks := s.tasks[i := t])
      modifies this
      ensures
        var cl, pinned := s.clients[c], PinFile(s.clients[c], k);
        var k', a := FirstIdleFile(pinned.files), Allocate(pinned);
        Did(rc,
            if k' == |cl.files| then RejectAt(s, c, i, EAGAIN, o)
            else if a.id == 0 then RejectAt(SetClient(s, c, cl.(nextId := a.next)), c, i, EOVERFLOW, o)
            else if o.submit != 0 then
              RejectAt(SetClient(s, c, SetFile(cl.(nextId := a.id), k', FREE_FILE)), c, i, o.submit, o)
            else Admit(s, c, Reserve(pinned.(nextId := a.next), k', a.id), i,
                       t.(result := k', resultId := a.id), fd, o))
    {
      hide RejectAt, Admit, Allocate;
      PinUnpin(s.clients[c], k);
      ghost var pinned := PinFile(s.clients[c], k);
      var k' := FindFreeFileSlot(c);
      if k' == |clients[c].files| {
        rc := UndoFileTask(s, c, k, i, t, EAGAIN, o);
        return;
      }
      assert k' != k;
      var id := AllocateResourceId(c);
      ghost var next := Allocate(pinned).next;
      SetTwice(s, c, pinned, pinned.(nextId := next));
      if id == 0 {
        rc := RefuseAccept(s, c, k, i, t, next, o);
        return;
      }
      rc := SubmitReserved(s, c, k, k', id, i, t, next, fd, o);
    }

    method DispatchFileOp(c: nat, r: Request, o: Oracle) returns (rc: int)
      requires Valid() && c < |clients| && IsFileOp(r)
      modifies this
      ensures Did(rc, DaemonSteps.DispatchFileOp(g, old(Abs()), c, r, o))
    {
      hide Reject, RejectAt, Admit, Allocate, PinFile, PinBuffer;
      ghost var s := Abs();
      var cl := clients[c];
      var k := FindFileSlot(c, r.resource);
      if k == |cl.files| || cl.files[k].closing {
        rc := RejectAndFinish(c, ENOENT, o);
        return;
      }
      if (r.Connect? || r.Accept?) && cl.files[k].fd.None? {
        rc := RejectAndFinish(c, EBADF, o);
        return;
      }
      var error, b := CheckBuffer(c, r);
      if error != 0 {
        rc := RejectAndFinish(c, error, o);
        return;
      }
      if nextTaskId >= TASK_ID_RESERVED {
        rc := RejectAndFinish(c, EOVERFLOW, o);
        return;
      }
      var i := FindFreeTaskSlot();
      if i == |tasks| {
        rc := RejectAndFinish(c, EAGAIN, o);
        return;
      }
      rc := SubmitFileOp(c, r, k, b, i, o);
    }

    /** The file, the buffer and the task slot are found: pin, reserve, submit. */
    method SubmitFileOp(c: nat, r: Request, k: nat, b: nat, i: nat, o: Oracle) returns (rc: int)
      requires Valid() && c < |clients| && IsFileOp(r) && i == FirstIdleTask(tasks) < |tasks|
      requires k == FindFile(clients[c].files, r.resource) < |clients[c].files|
      requires !clients[c].files[k].closing && nextTaskId < TASK_ID_RESERVED && BufferError(clients[c], r) == 0
      requires (r.Connect? || r.Accept?) ==> clients[c].files[k].fd.Some?
      requires (r.SockReadFixed? || r.SockWriteFixed?) ==> b == FindBuffer(clients[c].buffers, r.buffer) < |clients[c].buffers|
      modifies this
      ensures Did(rc, DaemonSteps.DispatchFileOp(g, old(Abs()), c, r, o))
    {
      hide Reject, RejectAt, Admit, Allocate, PinBuffer;
      ghost var s := Abs();
      ghost var fd := ResolveFd(g, s, c, k, KindOf(r));
      StartFileTask(c, i, r, k);
      ghost var t := FileTask(s, c, r, k);
      if r.Accept? {
        rc := SubmitAccept(s, c, k, i, t, fd, o);
      } else if r.SockReadFixed? || r.SockWriteFixed? {
        rc := SubmitFixed(s, c, k, b, i, t, r.buffer, fd, o);
      } else {
        rc := SubmitOnFile(s, c, k, i, t, fd, o);
      }
    }
  
    /** The checks before any slot is looked up: credits first, then for each kind whether
        the ring can do it and whether its fields will do. */
    method CheckAdmission(c: nat, r: Request) returns (error: nat)
      requires c < |clients| && !IsControl(r)
      ensures error == AdmissionError(g, Abs(), clients[c], r)
    {
      var usesCredit := !r.Cancel?;
      if usesCredit && outstandingCredit >= g.taskCapacity {
        return EAGAIN;
      }
      if usesCredit && clients[c].outstandingCredit >= g.creditLimit {
        return EAGAIN;
      }
      if !usesCredit && outstanding >= g.taskCapacity + 1 {
        return EAGAIN;
      }
      if r.Cancel? && OpAsyncCancel !in g.supported {
        return ENOTSUP;
      }
      if r.Cancel? && (r.target == 0 || r.target >= TASK_ID_RESERVED) {
        return EINVAL;
      }
      if (r.SockRead? || r.FileRead?) && OpReadv !in g.supported {
        return ENOTSUP;
      }
      if (r.SockWrite? || r.FileWrite?) && OpWritev !in g.supported {
        return ENOTSUP;
      }
      if r.Poll? && OpPoll !in g.supported {
        return ENOTSUP;
      }
      if r.Connect? && OpConnect !in g.supported {
        return ENOTSUP;
      }
      if r.Accept? && OpAccept !in g.supported {
        return ENOTSUP;
      }
      if r.Openat? && OpOpenat !in g.supported {
        return ENOTSUP;
      }
      if r.Close? && OpClose !in g.supported {
        return ENOTSUP;
      }
      if r.SockReadFixed? && OpReadFixed !in g.supported {
        return ENOTSUP;
      }
      if r.SockWriteFixed? && OpWriteFixed !in g.supported {
        return ENOTSUP;
      }
      var length := LengthOf(r);
      if (r.SockRead? || r.SockWrite? || r.FileRead? || r.FileWrite?) &&
         (r.resource == 0 || length == 0 || length > g.ioMax) {
        return EINVAL;
      }
      if r.Poll? && (r.resource == 0 || r.mask == 0) {
        return EINVAL;
      }
      if r.Connect? && (r.resource == 0 || length == 0 || length > g.ioMax || length >= U16) {
        return EINVAL;
      }
      if r.Accept? && (r.resource == 0 || length > g.ioMax || length >= U16) {
        return EINVAL;
      }
      if r.Openat? && (length < 2 || length > g.ioMax || r.data[length - 1] != 0) {
        return EINVAL;
      }
      if r.Close? && r.resource == 0 {
        return EINVAL;
      }
      if (r.SockReadFixed? || r.SockWriteFixed?) &&
         (r.resource == 0 || r.buffer == 0 || length == 0 || length > g.ioMax) {
        return EINVAL;
      }
      error := 0;
    }

    /** iouringd_dispatch_client_request */
    method Dispatch(c: nat, o: Oracle) returns (rc: int)
      requires Valid() && c < |clients| && clients[c].request.Some?
      modifies this
      ensures Did(rc, DispatchRequest(g, old(Abs()), c, o))
    {
      hide DaemonSteps.DispatchRegisterFd, DaemonSteps.DispatchRegisterBuffer, DaemonSteps.DispatchRelease,
        DaemonSteps.DispatchOpenat, DaemonSteps.DispatchClose, DaemonSteps.DispatchFileOp,
        DaemonSteps.DispatchPlain, Reject;
      var r := clients[c].request.value;
      if r.RegisterFd? {
        rc := DispatchRegisterFd(c, o);
      } else if r.RegisterBuffer? {
        rc := DispatchRegisterBuffer(c, r.data, o);
      } else if r.ReleaseResource? {
        rc := DispatchRelease(c, r.resource, o);
      } else if r.GetStats? || r.GetTrace? {
        rc := QueueRecord(c, if r.GetStats? then StatsResult else TraceResult, o.fits);
        if rc != 0 {
          return -1;
        }
        FinishClientRequest(c);
        rc := 1;
      } else {
        var error := CheckAdmission(c, r);
        if error != 0 {
          rc := RejectAndFinish(c, error, o);
        } else if r.Openat? {
          rc := DispatchOpenat(c, r, o);
        } else if r.Close? {
          rc := DispatchClose(c, r.resource, o);
        } else if IsFileOp(r) {
          rc := DispatchFileOp(c, r, o);
        } else {
          rc := DispatchPlain(c, r, o);
        }
      }
    }

    // ---- connections -------------------------------------------------------------------------

    method HasRetainedResources(c: nat) returns (retained: bool)
      requires c < |clients|
      ensures retained == !NothingRetained(clients[c])
    {
      var cl := clients[c];
      for k := 0 to |cl.files|
        invariant forall j | 0 <= j < k :: IdleFile(cl.files[j])
      {
        if cl.files[k].registered || cl.files[k].closing || cl.files[k].inFlight != 0 {
          return true;
        }
      }
      for b := 0 to |cl.buffers|
        invariant forall j | 0 <= j < b :: IdleBuffer(cl.buffers[j])
      {
        if cl.buffers[b].registered || cl.buffers[b].closing || cl.buffers[b].inFlight != 0 {
          return true;
        }
      }
      retained := false;
    }

    /** iouringd_open_client */
    method OpenClient()
      requires Valid()
      modifies this`clients, this`nextGeneration, this`logs
      ensures Abs() == DaemonSteps.OpenClient(g, old(Abs()))
    {
      var c := 0;
      while c < |clients|
        invariant c <= |clients|
        invariant FirstReusable(clients) == FirstReusable(clients, c)
        invariant clients == old(clients) && logs == old(logs) && nextGeneration == old(nextGeneration)
      {
        var retained := HasRetainedResources(c);
        if !clients[c].open && !retained && clients[c].outstanding == 0 {
          nextGeneration := Wrap32(nextGeneration + 1);
          clients := clients[c := FreshClient(g, nextGeneration)];
          logs := logs[c := []];
          return;
        }
        c := c + 1;
      }
    }

    /** iouringd_queue_handshake_result; `valid` says whether the request is acceptable. */
    method QueueHandshakeResult(c: nat, valid: bool, fits: bool) returns (rc: int)
      requires c < |clients| == |logs| && !clients[c].submit
      modifies this`clients, this`logs
      ensures Did(rc, ReplyHandshake(old(Abs()), c, valid, fits))
    {
      if valid {
        clients := clients[c := clients[c].(submit := true)];
      }
      rc := QueueRecord(c, HandshakeResult(valid), fits);
      assert rc == 0 ==> clients == old(clients)[c := old(clients)[c].(submit := valid)];
    }

    /** iouringd_close_client */
    method CloseClient(c: nat)
      requires c < |clients|
      modifies this`clients, this`ledger, this`closed
      ensures Abs() == DaemonSteps.CloseClient(old(Abs()), c)
    {
      var cl := clients[c];
      if cl.received.Some? {
        CloseFd(cl.received.value);
      }
      var files, buffers := cl.files, cl.buffers;
      for k := 0 to |files|
        invariant |files| == |cl.files|
        invariant forall j | 0 <= j < |files| :: files[j] == if j < k then RetireFile(cl.files[j]) else cl.files[j]
      {
        if files[k].registered {
          files := files[k := files[k].(closing := true)];
        }
      }
      for b := 0 to |buffers|
        invariant |buffers| == |cl.buffers|
        invariant forall j | 0 <= j < |buffers| :: buffers[j] == if j < b then RetireBuffer(cl.buffers[j]) else cl.buffers[j]
      {
        if buffers[b].registered {
          buffers := buffers[b := buffers[b].(closing := true)];
        }
      }
      clients := clients[c := cl.(open := false, submit := false, received := None, request := None, files := files, buffers := buffers)];
      assert clients[c] == RetireClient(cl);
    }

    // ---- sweep ---------------------------------------------------------------------------------

    method SweepClientFiles(c: nat, updates: bool) returns (rc: int)
      requires c < |clients|
      modifies this`clients, this`ledger, this`closed, this`table
      ensures Did(rc, SweepFilesFrom(g, old(Abs()), c, 0, updates))
    {
      hide TryReleaseFile;
      var k := 0;
      rc := 0;
      while k < |clients[c].files|
        invariant c < |clients| && k <= |clients[c].files| && rc >= 0
        invariant SweepFilesFrom(g, Abs(), c, k, updates) == SweepFilesFrom(g, old(Abs()), c, 0, updates)
        decreases |clients[c].files| - k
      {
        if clients[c].files[k].closing && clients[c].files[k].inFlight == 0 {
          rc := TryReleaseFileSlot(c, k, updates);
          if rc < 0 {
            return;
          }
          rc := 1;
        }
        k := k + 1;
      }
    }

    method SweepClientBuffers(c: nat)
      requires c < |clients|
      modifies this`clients
      ensures Abs() == SweepBuffersFrom(old(Abs()), c, 0)
    {
      var b := 0;
      while b < |clients[c].buffers|
        invariant c < |clients| && b <= |clients[c].buffers|
        invariant SweepBuffersFrom(Abs(), c, b) == SweepBuffersFrom(old(Abs()), c, 0)
        decreases |clients[c].buffers| - b
      {
        if clients[c].buffers[b].closing && clients[c].buffers[b].inFlight == 0 {
          TryReleaseBufferSlot(c, b);
        }
        b := b + 1;
      }
    }

    /** iouringd_sweep_closing_resources */
    method Sweep(updates: bool) returns (rc: int)
      modifies this`clients, this`ledger, this`closed, this`table
      ensures Did(rc, SweepFrom(g, old(Abs()), 0, updates))
    {
      hide SweepFilesFrom, SweepBuffersFrom;
      var c := 0;
      rc := 0;
      while c < |clients|
        invariant c <= |clients| == |old(clients)| && rc >= 0
        invariant SweepFrom(g, Abs(), c, updates) == SweepFrom(g, old(Abs()), 0, updates)
      {
        ghost var s := Abs();
        rc := SweepClientFiles(c, updates);
        SweepLengths(g, s, c, updates);
        if rc < 0 {
          return;
        }
        SweepClientBuffers(c);
        c := c + 1;
      }
    }
  
    // ---- completion --------------------------------------------------------------------------------

    /** The operation produced a file that is not kept. */
    method DiscardProduct(i: nat, ghost p: Product)
      requires i < |tasks| && tasks[i].client < |clients| && tasks[i].closeFd.None? && p.Discarded?
      modifies this`issued, this`ledger, this`closed
      ensures Abs() == Prepare(g, old(Abs()), tasks[i], p)
    {
      var fd := issued;
      issued := issued + 1;
      CloseFd(fd);
    }

    /** The new file goes into the table; if that fails it is closed. */
    method InstallProduct(i: nat, q: Cqe) returns (p: Product)
      requires i < |tasks| && tasks[i].client < |clients| && tasks[i].closeFd.None?
      requires 0 <= tasks[i].result < |clients[tasks[i].client].files|
      modifies this`clients, this`table, this`issued, this`ledger, this`closed
      ensures p == if q.update != 0 then Discarded(-(q.update as int)) else Installed
      ensures Abs() == Prepare(g, old(Abs()), tasks[i], p)
    {
      var t := tasks[i];
      var c, k: nat, fd := t.client, t.result, issued;
      var rc := UpdateRegisteredFile(GlobalFile(g, c, k), Some(fd), q.update);
      if rc != 0 {
        p := Discarded(-(q.update as int));
        DiscardProduct(i, p);
        return;
      }
      issued := issued + 1;
      ledger := ledger[fd := InSlot(c, k)];
      clients := clients[c := SetFile(clients[c], k, clients[c].files[k].(
        id := t.resultId, fd := Some(fd), registered := true, closing := false))];
      p := Installed;
    }

    /** iouringd_prepare_accept_completion */
    method PrepareAccept(i: nat, q: Cqe) returns (p: Product)
      requires i < |tasks| && tasks[i].client < |clients| && tasks[i].closeFd.None? && tasks[i].kind == KAccept
      modifies this`clients, this`table, this`issued, this`ledger, this`closed
      ensures p == ProductOf(old(clients)[tasks[i].client], tasks[i], q)
      ensures Abs() == Prepare(g, old(Abs()), tasks[i], p)
    {
      hide Prepare;
      var t, cl := tasks[i], clients[tasks[i].client];
      if q.res < 0 {
        p := NoFile;
        NothingPrepared(g, Abs(), t);
      } else if t.result < 0 {
        p := Discarded(-EIO);
        DiscardProduct(i, p);
      } else if t.result >= |cl.files| {
        p := Discarded(-EIO);
        DiscardProduct(i, p);
      } else if q.addressLength > t.length || t.resultId == 0 || t.resultId > INT32_MAX {
        p := Discarded(-EPROTO);
        DiscardProduct(i, p);
      } else if !cl.open || cl.generation != t.generation {
        p := Discarded(q.res);
        DiscardProduct(i, p);
      } else {
        p := InstallProduct(i, q);
      }
    }

    /** iouringd_prepare_openat_completion */
    method PrepareOpenat(i: nat, q: Cqe) returns (p: Product)
      requires i < |tasks| && tasks[i].client < |clients| && tasks[i].closeFd.None? && tasks[i].kind == KOpenat
      modifies this`clients, this`table, this`issued, this`ledger, this`closed
      ensures p == ProductOf(old(clients)[tasks[i].client], tasks[i], q)
      ensures Abs() == Prepare(g, old(Abs()), tasks[i], p)
    {
      hide Prepare;
      var t, cl := tasks[i], clients[tasks[i].client];
      if q.res < 0 {
        p := NoFile;
        NothingPrepared(g, Abs(), t);
      } else if t.result < 0 {
        p := Discarded(-EIO);
        DiscardProduct(i, p);
      } else if t.result >= |cl.files| || t.resultId == 0 || t.resultId > INT32_MAX {
        p := Discarded(-EPROTO);
        DiscardProduct(i, p);
      } else if !cl.open || cl.generation != t.generation {
        p := Discarded(q.res);
        DiscardProduct(i, p);
      } else {
        p := InstallProduct(i, q);
      }
    }

    /** A new file is installed or discarded; the kernel has closed what a CLOSE was given. */
    method PrepareCompletion(i: nat, q: Cqe) returns (p: Product)
      requires i < |tasks| && tasks[i].client < |clients|
      requires tasks[i].closeFd.Some? ==> !MakesFile(tasks[i].kind)
      modifies this`clients, this`table, this`issued, this`ledger, this`closed
      ensures p == ProductOf(old(clients)[tasks[i].client], tasks[i], q)
      ensures Abs() == Prepare(g, old(Abs()), tasks[i], p)
    {
      if tasks[i].closeFd.Some? {
        p := NoFile;
        CloseFd(tasks[i].closeFd.value);
      } else if tasks[i].kind == KAccept {
        p := PrepareAccept(i, q);
      } else if tasks[i].kind == KOpenat {
        p := PrepareOpenat(i, q);
      } else {
        p := NoFile;
      }
    }

    /** A completed fixed read makes its bytes the valid ones. */
    method ReadBackLength(i: nat, q: Cqe)
      requires i < |tasks| && tasks[i].client < |clients|
      modifies this`clients
      ensures Abs() == ReadBack(old(Abs()), tasks[i].client, tasks[i], q)
    {
      var t := tasks[i];
      var c := t.client;
      if t.kind == KSockReadFixed && 0 <= t.buffer < |clients[c].buffers| && q.res >= 0 {
        clients := clients[c := SetBuffer(clients[c], t.buffer, clients[c].buffers[t.buffer].(validLength := q.res))];
      }
    }

    /** The completion record, and its payload if there is one. */
    method QueueCompletion(c: nat, cl: Client, t: Task, q: Cqe) returns (rc: int)
      requires c < |logs|
      modifies this`logs
      ensures rc == (if q.fits then 0 else -1)
      ensures q.fits ==> logs == old(logs)[c := old(logs)[c] + Report(cl, t, q)]
    {
      var p := ProductOf(cl, t, q);
      var n := ReportedPayload(t, q, p);
      rc := QueueRecord(c, Completion(t.id, t.kind, ReportedResult(t, q, p), n), q.fits);
      if rc != 0 {
        return -1;
      }
      if n != 0 && PayloadPresent(cl, t, q, p) {
        rc := QueueRecord(c, Payload(n), q.fits);
      }
      assert logs[c] == old(logs)[c] + Report(cl, t, q);
      assert logs == old(logs)[c := logs[c]];
    }

    method LetGoFileSlot(c: nat, k: int, releases: bool) returns (rc: int)
      requires c < |clients|
      modifies this`clients, this`table, this`ledger, this`closed
      ensures Did(rc, LetGoFile(g, old(Abs()), c, k, releases))
    {
      rc := 0;
      if 0 <= k < |clients[c].files| {
        clients := clients[c := SetFile(clients[c], k, Unpin(clients[c].files[k]))];
        if clients[c].files[k].closing {
          rc := TryReleaseFileSlot(c, k, releases);
        }
      }
    }

    method LetGoResultSlot(c: nat, k: int, releases: bool) returns (rc: int)
      requires c < |clients|
      modifies this`clients, this`table, this`ledger, this`closed
      ensures Did(rc, LetGoResult(g, old(Abs()), c, k, releases))
    {
      rc := 0;
      if 0 <= k < |clients[c].files| {
        clients := clients[c := SetFile(clients[c], k, Unpin(clients[c].files[k]))];
        if !clients[c].files[k].registered || clients[c].files[k].closing {
          rc := TryReleaseFileSlot(c, k, releases);
        }
      }
    }

    method LetGoBufferSlot(c: nat, b: int)
      requires c < |clients|
      modifies this`clients
      ensures Abs() == LetGoBuffer(old(Abs()), c, b)
    {
      if 0 <= b < |clients[c].buffers| {
        clients := clients[c := SetBuffer(clients[c], b, UnpinBuffer(clients[c].buffers[b]))];
        if clients[c].buffers[b].closing {
          TryReleaseBufferSlot(c, b);
        }
      }
    }

    /** Take the task in slot `i` out of the counts. */
    method UncountTask(i: nat)
      requires i < |tasks| && tasks[i].client < |clients|
      modifies this`clients, this`outstanding, this`outstandingCredit, this`completions
      ensures
        var t, cl := tasks[i], old(clients)[tasks[i].client];
        && clients == old(clients)[t.client := cl.(
             outstanding := Less(cl.outstanding),
             outstandingCredit := if t.credit then Less(cl.outstandingCredit) else cl.outstandingCredit)]
        && outstanding == old(outstanding) - 1
        && outstandingCredit == old(outstandingCredit) - (if t.credit then 1 else 0)
        && completions == old(completions) + 1
    {
      var c := tasks[i].client;
      if tasks[i].credit {
        outstandingCredit := outstandingCredit - 1;
        clients := clients[c := clients[c].(outstandingCredit := Less(clients[c].outstandingCredit))];
      }
      completions := completions + 1;
      outstanding := outstanding - 1;
      clients := clients[c := clients[c].(outstanding := Less(clients[c].outstanding))];
    }

    method DiscountTask(i: nat)
      requires i < |tasks| && tasks[i].client < |clients|
      modifies this`clients, this`tasks, this`outstanding, this`outstandingCredit, this`completions, this`ops
      ensures Abs() == Discount(old(Abs()), i)
    {
      UncountTask(i);
      ops := ops - {tasks[i].id};
      ClearTaskSlot(i);
    }

    /** The three slots, one after the other. */
    method LetGoSlots(t: Task, releases: bool) returns (rc: int)
      requires t.client < |clients|
      modifies this`clients, this`table, this`ledger, this`closed
      ensures Did(rc, LetGo(g, old(Abs()), t, releases))
    {
      hide LetGoFile, LetGoResult, LetGoBuffer;
      ghost var s := Abs();
      LetGoLengths(g, s, t.client, t.file, releases);
      rc := LetGoFileSlot(t.client, t.file, releases);
      if rc < 0 {
        return;
      }
      LetGoResultLengths(g, Abs(), t.client, t.result, releases);
      rc := LetGoResultSlot(t.client, t.result, releases);
      if rc < 0 {
        return;
      }
      LetGoBufferSlot(t.client, t.buffer);
    }

    /** Everything up to the completion record. */
    method AnnounceCompletion(i: nat, q: Cqe) returns (rc: int)
      requires i < |tasks| && tasks[i].client < |clients| == |logs|
      requires tasks[i].closeFd.Some? ==> !MakesFile(tasks[i].kind)
      modifies this`clients, this`table, this`issued, this`ledger, this`closed, this`logs
      ensures
        var s := old(Abs());
        var t := s.tasks[i];
        var cl := s.clients[t.client];
        var s1 := ReadBack(Prepare(g, s, t, ProductOf(cl, t, q)), t.client, t, q);
        var live := cl.open && cl.generation == t.generation;
        && |s1.logs| == |s.logs|
        && if live && !q.fits then rc < 0
           else rc == 0 && Abs() == if live then Queue(s1, t.client, Report(cl, t, q)) else s1
    {
      hide ProductOf, Report, Prepare, ReadBack;
      var t := tasks[i];
      var c := t.client;
      var cl := clients[c];
      PreparedLengths(g, Abs(), t, ProductOf(cl, t, q), q);
      var p := PrepareCompletion(i, q);
      ReadBackLength(i, q);
      rc := 0;
      if cl.open && cl.generation == t.generation {
        rc := QueueCompletion(c, cl, t, q);
      }
    }

    /** iouringd_complete_task */
    method Complete(i: nat, q: Cqe) returns (rc: int)
      requires i < |tasks| && tasks[i].client < |clients| == |logs|
      requires tasks[i].closeFd.Some? ==> !MakesFile(tasks[i].kind)
      modifies this
      ensures Did(rc, InOrder(g, old(Abs()), i, q))
    {
      hide ProductOf, Report, Prepare, ReadBack, LetGo, Discount;
      var t := tasks[i];
      rc := AnnounceCompletion(i, q);
      if rc < 0 {
        return;
      }
      assert |clients| == |old(clients)| && tasks == old(tasks) by {
        PreparedLengths(g, old(Abs()), t, ProductOf(old(clients)[t.client], t, q), q);
      }
      LetGoTasks(g, Abs(), t, q.releases);
      rc := LetGoSlots(t, q.releases);
      if rc < 0 {
        return;
      }
      DiscountTask(i);
      rc := 1;
    }
  
    /** iouringd_reap_completions over what the kernel has posted. The branch for an id that
        no task has is never taken. */
    method ReapCompletions(entries: seq<Entry>) returns (rc: int)
      requires Inv(g, Abs()) && KernelPosts(g, Abs(), entries)
      modifies this
      ensures Inv(g, old(Abs())) && Did(rc, ReapAll(g, old(Abs()), entries))
      ensures rc >= 0 ==> Inv(g, Abs())
    {
      hide Inv, ReapOne, CompleteTask, InOrder;
      var n := 0;
      rc := 0;
      while n < |entries|
        invariant n <= |entries| && rc >= 0
        invariant Inv(g, Abs()) && KernelPosts(g, Abs(), entries[n..])
        invariant ReapAll(g, Abs(), entries[n..]) == ReapAll(g, old(Abs()), entries)
      {
        var e := entries[n];
        assert entries[n..][0] == e && entries[n..][1..] == entries[n + 1..];
        ReapFinds(g, Abs(), e.id);
        ReapIsInOrder(g, Abs(), e.id, e.cqe);
        ReapKeeps(g, Abs(), e.id, e.cqe);
        var i := FindTaskSlot(e.id);
        assert i < |tasks|;
        rc := Complete(i, e.cqe);
        if rc < 0 {
          return;
        }
        n := n + 1;
      }
    }
  }
}
