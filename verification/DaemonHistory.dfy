/** How one state follows another: what a step may do to tasks, connections and ids, and
    what therefore holds between any two states of a run. */
module DaemonHistory {
  import opened Protocol
  import opened DaemonState
  import opened DaemonSteps
  import opened DaemonInvariant
  import opened DaemonCompletion

  // ---- what a step does to the tasks -----------------------------------------------

  predicate SameWork(s: State, s': State) {
    s'.tasks == s.tasks && s'.ops == s.ops && s'.nextTaskId == s.nextTaskId
  }

  /** One task was admitted, to the first idle slot, under the next id. */
  predicate Admitted(s: State, s': State) {
    var i := FirstIdleTask(s.tasks);
    && i < |s.tasks| == |s'.tasks|
    && s'.tasks == s.tasks[i := s'.tasks[i]]
    && s'.nextTaskId == s.nextTaskId + 1
    && s.nextTaskId in s'.ops
    && s'.ops == s.ops[s.nextTaskId := s'.ops[s.nextTaskId]]
  }

  /** Without 32-bit wrap-around the id counter does not fall, and an id that a slot did
      not carry before is one the counter has just passed. */
  ghost predicate IdsAdvance(cl: Client, cl': Client) {
    && |cl'.files| == |cl.files| && |cl'.buffers| == |cl.buffers|
    && (cl.nextId + |cl.files| + |cl.buffers| < U32 ==>
          && cl.nextId <= cl'.nextId
          && forall n | 0 <= n < |cl.files| + |cl.buffers| ::
               || IdAt(cl', n) == 0
               || IdAt(cl', n) == IdAt(cl, n)
               || cl.nextId <= IdAt(cl', n) < cl'.nextId)
  }

  /** What dispatching for client `c` may do. */
  ghost predicate DispatchEffect(s: State, s': State, c: nat) {
    && c < |s.clients| == |s'.clients|
    && s'.clients == s.clients[c := s'.clients[c]]
    && s'.clients[c].open == s.clients[c].open
    && s'.clients[c].generation == s.clients[c].generation
    && (SameWork(s, s') || Admitted(s, s'))
    && IdsAdvance(s.clients[c], s'.clients[c])
  }

  lemma {:induction false} AllocateAdvances(cl: Client, next: nat, attempts: nat)
    requires next + attempts < U32
    ensures var a := AllocateFrom(cl, next, attempts);
            if a.id == 0 then a.next == next + attempts
            else next <= a.id && a.next == a.id + 1 <= next + attempts
    decreases attempts
  {
    if attempts != 0 && (next == 0 || IdInUse(cl, next)) {
      AllocateAdvances(cl, Wrap32(next + 1), attempts - 1);
    }
  }

  /** A client's record changes; only slot `n`'s id may be new. */
  lemma SlotAdvance(cl: Client, cl': Client, n: nat)
    requires |cl'.files| == |cl.files| && |cl'.buffers| == |cl.buffers| && n < |cl.files| + |cl.buffers|
    requires forall m | 0 <= m < |cl.files| + |cl.buffers| && m != n :: IdAt(cl', m) == IdAt(cl, m)
    requires cl.nextId + |cl.files| + |cl.buffers| < U32 ==>
               && cl.nextId <= cl'.nextId
               && (IdAt(cl', n) == 0 || IdAt(cl', n) == IdAt(cl, n) || cl.nextId <= IdAt(cl', n) < cl'.nextId)
    ensures IdsAdvance(cl, cl')
  {
  }

  lemma SetFileAdvance(cl: Client, cl': Client, k: nat)
    requires k < |cl.files| && cl'.files == cl.files[k := if k < |cl'.files| then cl'.files[k] else cl.files[k]]
    requires cl'.buffers == cl.buffers
    requires cl.nextId + |cl.files| + |cl.buffers| < U32 ==>
               cl.nextId <= cl'.nextId
               && (cl'.files[k].id == 0 || cl'.files[k].id == cl.files[k].id || cl.nextId <= cl'.files[k].id < cl'.nextId)
    ensures IdsAdvance(cl, cl')
  {
    assert IdAt(cl', k) == cl'.files[k].id;
    SlotAdvance(cl, cl', k);
  }

  lemma SetBufferAdvance(cl: Client, cl': Client, b: nat)
    requires b < |cl.buffers| && cl'.buffers == cl.buffers[b := if b < |cl'.buffers| then cl'.buffers[b] else cl.buffers[b]]
    requires cl'.files == cl.files
    requires cl.nextId + |cl.files| + |cl.buffers| < U32 ==>
               cl.nextId <= cl'.nextId
               && (cl'.buffers[b].id == 0 || cl'.buffers[b].id == cl.buffers[b].id || cl.nextId <= cl'.buffers[b].id < cl'.nextId)
    ensures IdsAdvance(cl, cl')
  {
    assert IdAt(cl', |cl.files| + b) == cl'.buffers[b].id;
    SlotAdvance(cl, cl', |cl.files| + b);
  }

  /** Client `c` has record `cl`; nothing was admitted. */
  ghost predicate Prepared(s: State, s1: State, c: nat, cl: Client) {
    && c < |s.clients| && s1.clients == s.clients[c := cl] && |s1.clients| == |s1.logs|
    && SameWork(s, s1)
    && cl.open == s.clients[c].open && cl.generation == s.clients[c].generation
    && IdsAdvance(s.clients[c], cl)
  }

  lemma AnsweredAdvance(cl: Client, cl1: Client, cl': Client)
    requires IdsAdvance(cl, cl1) && cl'.files == cl1.files && cl'.buffers == cl1.buffers && cl'.nextId == cl1.nextId
    ensures IdsAdvance(cl, cl')
  {
    assert forall n | 0 <= n < |cl1.files| + |cl1.buffers| :: IdAt(cl', n) == IdAt(cl1, n);
  }

  lemma ReplyEffect(s: State, s1: State, c: nat, cl: Client, id: nat, status: int, o: Oracle)
    requires Prepared(s, s1, c, cl)
    ensures var x := ReplyResource(s1, c, id, status, o); x.Running? ==> DispatchEffect(s, x.state, c)
  {
    AnsweredAdvance(s.clients[c], cl, cl.(request := None));
    hide IdsAdvance;
  }

  lemma RejectEffect(s: State, s1: State, c: nat, cl: Client, error: nat, o: Oracle)
    requires Prepared(s, s1, c, cl)
    ensures var x := Reject(s1, c, error, o); x.Running? ==> DispatchEffect(s, x.state, c)
  {
    AnsweredAdvance(s.clients[c], cl, cl.(request := None));
    hide IdsAdvance;
  }

  lemma RejectAtEffect(g: Config, s: State, s1: State, c: nat, cl: Client, error: nat, o: Oracle)
    requires TasksOk(g, s) && Prepared(s, s1, c, cl) && FirstIdleTask(s.tasks) < |s.tasks|
    ensures var x := RejectAt(s1, c, FirstIdleTask(s.tasks), error, o); x.Running? ==> DispatchEffect(s, x.state, c)
  {
    hide DispatchEffect;
    var i := FirstIdleTask(s.tasks);
    assert s1.tasks[i := IDLE_TASK] == s1.tasks;
    RejectEffect(s, s1, c, cl, error, o);
  }

  lemma AdmitEffect(s: State, s1: State, c: nat, cl: Client, t: Task, fd: Option<Fd>, o: Oracle)
    requires c < |s.clients| == |s.logs| && s1 == s.(table := s1.table, ledger := s1.ledger)
    requires FirstIdleTask(s.tasks) < |s.tasks| && t.id == s.nextTaskId
    requires cl.open == s.clients[c].open && cl.generation == s.clients[c].generation
    requires IdsAdvance(s.clients[c], cl)
    ensures var x := Admit(s1, c, cl, FirstIdleTask(s.tasks), t, fd, o); x.Running? ==> DispatchEffect(s, x.state, c)
  {
    var x := Admit(s1, c, cl, FirstIdleTask(s.tasks), t, fd, o);
    if x.Running? {
      AnsweredAdvance(s.clients[c], cl, x.state.clients[c]);
      hide IdsAdvance;
      assert Admitted(s, x.state);
    }
  }

  /** The allocator's part, when nothing wraps. */
  lemma AllocationRange(cl: Client)
    requires cl.nextId + |cl.files| + |cl.buffers| < U32
    ensures var a := Allocate(cl); cl.nextId <= a.next && (a.id != 0 ==> cl.nextId <= a.id < a.next)
  {
    AllocateAdvances(cl, cl.nextId, |cl.files| + |cl.buffers|);
  }

  lemma RegisterFdEffect(g: Config, s: State, c: nat, o: Oracle)
    requires Shape(g, s) && c < |s.clients|
    ensures var x := DispatchRegisterFd(g, s, c, o); x.Running? ==> DispatchEffect(s, x.state, c)
  {
    hide Allocate, IdsAdvance, DispatchEffect, ReplyResource;
    var cl := s.clients[c];
    if cl.nextId + |cl.files| + |cl.buffers| < U32 { AllocationRange(cl); }
    SetFileAdvance(cl, cl, 0);
    if cl.received.None? {
      ReplyEffect(s, s, c, cl, 0, -EINVAL, o);
    } else {
      var fd := cl.received.value;
      var k := FirstIdleFile(cl.files);
      var a := Allocate(cl);
      var dropped, taken := cl.(received := None), cl.(received := None, nextId := a.next);
      SetFileAdvance(cl, dropped, 0);
      SetFileAdvance(cl, taken, 0);
      if k == |cl.files| {
        ReplyEffect(s, CloseFd(SetClient(s, c, dropped), fd), c, dropped, 0, -EAGAIN, o);
      } else if a.id == 0 || o.update != 0 {
        ReplyEffect(s, CloseFd(SetClient(s, c, taken), fd), c, taken,
                    0, if a.id == 0 then -EOVERFLOW else -(o.update as int), o);
      } else {
        var cl' := SetFile(taken, k, FileSlot(a.id, Some(fd), 0, true, false));
        SetFileAdvance(cl, cl', k);
        ReplyEffect(s, Move(SetClient(s, c, cl'), fd, InSlot(c, k)).(table := s.table[GlobalFile(g, c, k) := fd]),
                    c, cl', a.id, 0, o);
      }
    }
  }

  lemma RegisterBufferEffect(g: Config, s: State, c: nat, data: seq<Byte>, o: Oracle)
    requires Shape(g, s) && c < |s.clients|
    ensures var x := DispatchRegisterBuffer(s, c, data, o); x.Running? ==> DispatchEffect(s, x.state, c)
  {
    hide Allocate, IdsAdvance, DispatchEffect, ReplyResource;
    var cl := s.clients[c];
    if cl.nextId + |cl.files| + |cl.buffers| < U32 { AllocationRange(cl); }
    var b := FirstIdleBuffer(cl.buffers);
    var a := Allocate(cl);
    var taken := cl.(nextId := a.next);
    SetFileAdvance(cl, cl, 0);
    SetFileAdvance(cl, taken, 0);
    if b == |cl.buffers| {
      ReplyEffect(s, s, c, cl, 0, -EAGAIN, o);
    } else if a.id == 0 {
      ReplyEffect(s, SetClient(s, c, taken), c, taken, 0, -EOVERFLOW, o);
    } else {
      var cl' := SetBuffer(taken, b, BufferSlot(a.id, 0, true, false, |data|));
      SetBufferAdvance(cl, cl', b);
      ReplyEffect(s, SetClient(s, c, cl'), c, cl', a.id, 0, o);
    }
  }

  lemma ReleaseEffect(g: Config, s: State, c: nat, id: nat, o: Oracle)
    requires Shape(g, s) && c < |s.clients|
    ensures var x := DispatchRelease(g, s, c, id, o); x.Running? ==> DispatchEffect(s, x.state, c)
  {
    hide IdsAdvance, DispatchEffect, ReplyResource;
    var cl := s.clients[c];
    var k := FindFile(cl.files, id);
    var b := FindBuffer(cl.buffers, id);
    SetFileAdvance(cl, cl, 0);
    if id != 0 && k < |cl.files| && cl.files[k].inFlight == 0 {
      var cl' := SetFile(cl, k, FREE_FILE);
      SetFileAdvance(cl, cl', k);
      ReplyEffect(s, DropFile(g, s, c, k), c, cl', id, 0, o);
    } else if id != 0 && k == |cl.files| && b < |cl.buffers| && cl.buffers[b].inFlight == 0 {
      var cl' := SetBuffer(cl, b, FREE_BUFFER);
      SetBufferAdvance(cl, cl', b);
      ReplyEffect(s, SetClient(s, c, cl'), c, cl', id, 0, o);
    } else {
      ReplyEffect(s, s, c, cl, 0, -EINVAL, o);
      ReplyEffect(s, s, c, cl, 0, -EBUSY, o);
      ReplyEffect(s, s, c, cl, 0, -ENOENT, o);
    }
  }

  lemma OpenatEffect(g: Config, s: State, c: nat, r: Request, o: Oracle)
    requires Shape(g, s) && TasksOk(g, s) && c < |s.clients| && r.Openat?
    ensures var x := DispatchOpenat(g, s, c, r, o); x.Running? ==> DispatchEffect(s, x.state, c)
  {
    hide Allocate, IdsAdvance, DispatchEffect, Reject, RejectAt, Admit, TasksOk;
    var cl := s.clients[c];
    if cl.nextId + |cl.files| + |cl.buffers| < U32 { AllocationRange(cl); }
    SetFileAdvance(cl, cl, 0);
    var k := FirstIdleFile(cl.files);
    var a := Allocate(cl);
    var i := FirstIdleTask(s.tasks);
    var taken := cl.(nextId := a.next);
    SetFileAdvance(cl, taken, 0);
    if s.nextTaskId >= TASK_ID_RESERVED {
      RejectEffect(s, s, c, cl, EOVERFLOW, o);
    } else if k == |cl.files| {
      RejectEffect(s, s, c, cl, EAGAIN, o);
    } else if a.id == 0 || i == |s.tasks| {
      RejectEffect(s, SetClient(s, c, taken), c, taken, if a.id == 0 then EOVERFLOW else EAGAIN, o);
    } else if o.submit != 0 {
      var cl' := SetFile(cl.(nextId := a.id), k, FREE_FILE);
      SetFileAdvance(cl, cl', k);
      RejectAtEffect(g, s, SetClient(s, c, cl'), c, cl', o.submit, o);
    } else {
      var cl' := Reserve(taken, k, a.id);
      SetFileAdvance(cl, cl', k);
      var t := NewTask(s, c, KOpenat).(result := k, resultId := a.id, length := |r.data|);
      AdmitEffect(s, s, c, cl', t, None, o);
    }
  }

  lemma CloseEffect(g: Config, s: State, c: nat, id: nat, o: Oracle)
    requires Shape(g, s) && TasksOk(g, s) && c < |s.clients|
    ensures var x := DispatchClose(g, s, c, id, o); x.Running? ==> DispatchEffect(s, x.state, c)
  {
    hide IdsAdvance, DispatchEffect, Reject, RejectAt, Admit, TasksOk;
    var cl := s.clients[c];
    SetFileAdvance(cl, cl, 0);
    var k := FindFile(cl.files, id);
    var i := FirstIdleTask(s.tasks);
    RejectEffect(s, s, c, cl, ENOENT, o);
    RejectEffect(s, s, c, cl, EBUSY, o);
    RejectEffect(s, s, c, cl, EOVERFLOW, o);
    RejectEffect(s, s, c, cl, EAGAIN, o);
    if k < |cl.files| && cl.files[k].fd.Some? && i < |s.tasks| {
      var fd := cl.files[k].fd;
      RejectAtEffect(g, s, s.(table := s.table[GlobalFile(g, c, k) := fd.value]), c, cl, o.submit, o);
      var cl' := SetFile(cl, k, FileSlot(id, None, 1, false, true));
      SetFileAdvance(cl, cl', k);
      var t := NewTask(s, c, KClose).(file := k, resourceId := id, closeFd := fd);
      AdmitEffect(s, Move(s.(table := s.table - {GlobalFile(g, c, k)}), fd.value, CloseOp(i)), c, cl', t, fd, o);
    }
  }

  lemma AcceptEffect(g: Config, s: State, c: nat, r: Request, o: Oracle)
    requires Shape(g, s) && TasksOk(g, s) && c < |s.clients| && r.Accept?
    requires FindFile(s.clients[c].files, r.resource) < |s.clients[c].files|
    requires FirstIdleTask(s.tasks) < |s.tasks|
    ensures
      var k := FindFile(s.clients[c].files, r.resource);
      var cl, i, pinned := s.clients[c], FirstIdleTask(s.tasks), PinFile(s.clients[c], k);
      var k', a := FirstIdleFile(pinned.files), Allocate(pinned);
      var refused := RejectAt(SetClient(s, c, cl.(nextId := a.next)), c, i, EOVERFLOW, o);
      && (refused.Running? ==> DispatchEffect(s, refused.state, c))
      && (k' < |cl.files| && a.id != 0 ==>
            var undone := RejectAt(SetClient(s, c, SetFile(cl.(nextId := a.id), k', FREE_FILE)), c, i, o.submit, o);
            var done := Admit(s, c, Reserve(pinned.(nextId := a.next), k', a.id), i,
                              FileTask(s, c, r, k).(result := k', resultId := a.id), ResolveFd(g, s, c, k, KAccept), o);
            && (undone.Running? ==> DispatchEffect(s, undone.state, c))
            && (done.Running? ==> DispatchEffect(s, done.state, c)))
  {
    hide Allocate, IdsAdvance, DispatchEffect, Reject, RejectAt, Admit, TasksOk;
    var cl := s.clients[c];
    var k := FindFile(cl.files, r.resource);
    var pinned := PinFile(cl, k);
    var k', a := FirstIdleFile(pinned.files), Allocate(pinned);
    if cl.nextId + |cl.files| + |cl.buffers| < U32 { AllocationRange(pinned); }
    SetFileAdvance(cl, cl.(nextId := a.next), 0);
    RejectAtEffect(g, s, SetClient(s, c, cl.(nextId := a.next)), c, cl.(nextId := a.next), EOVERFLOW, o);
    if k' < |cl.files| && a.id != 0 {
      var freed := SetFile(cl.(nextId := a.id), k', FREE_FILE);
      SetFileAdvance(cl, freed, k');
      RejectAtEffect(g, s, SetClient(s, c, freed), c, freed, o.submit, o);
      var reserved := Reserve(pinned.(nextId := a.next), k', a.id);
      assert IdsAdvance(cl, reserved) by {
        var plain := Reserve(cl.(nextId := a.next), k', a.id);
        SetFileAdvance(cl, plain, k');
        SameIdsAdvance(cl, plain, reserved);
      }
      AdmitEffect(s, s, c, reserved, FileTask(s, c, r, k).(result := k', resultId := a.id),
                  ResolveFd(g, s, c, k, KAccept), o);
    }
  }

  lemma SameIdsAdvance(cl: Client, cl1: Client, cl': Client)
    requires IdsAdvance(cl, cl1) && cl'.nextId == cl1.nextId
    requires |cl'.files| == |cl1.files| && |cl'.buffers| == |cl1.buffers|
    requires forall k | 0 <= k < |cl1.files| :: cl'.files[k].id == cl1.files[k].id
    requires forall b | 0 <= b < |cl1.buffers| :: cl'.buffers[b].id == cl1.buffers[b].id
    ensures IdsAdvance(cl, cl')
  {
    assert forall n | 0 <= n < |cl1.files| + |cl1.buffers| :: IdAt(cl', n) == IdAt(cl1, n);
  }

  lemma FileOpEffect(g: Config, s: State, c: nat, r: Request, o: Oracle)
    requires Shape(g, s) && TasksOk(g, s) && c < |s.clients| && IsFileOp(r)
    ensures var x := DispatchFileOp(g, s, c, r, o); x.Running? ==> DispatchEffect(s, x.state, c)
  {
    hide Allocate, IdsAdvance, DispatchEffect, Reject, RejectAt, Admit, TasksOk;
    var cl := s.clients[c];
    SetFileAdvance(cl, cl, 0);
    var k := FindFile(cl.files, r.resource);
    var i := FirstIdleTask(s.tasks);
    RejectEffect(s, s, c, cl, ENOENT, o);
    RejectEffect(s, s, c, cl, EBADF, o);
    RejectEffect(s, s, c, cl, BufferError(cl, r), o);
    RejectEffect(s, s, c, cl, EOVERFLOW, o);
    RejectEffect(s, s, c, cl, EAGAIN, o);
    if k < |cl.files| && i < |s.tasks| {
      RejectAtEffect(g, s, s, c, cl, EAGAIN, o);
      RejectAtEffect(g, s, s, c, cl, o.submit, o);
      var pinned, fd, t := PinFile(cl, k), ResolveFd(g, s, c, k, KindOf(r)), FileTask(s, c, r, k);
      SameIdsAdvance(cl, cl, pinned);
      if r.Accept? {
        AcceptEffect(g, s, c, r, o);
      } else if r.SockReadFixed? || r.SockWriteFixed? {
        var b := FindBuffer(cl.buffers, r.buffer);
        if b < |cl.buffers| {
          SameIdsAdvance(cl, cl, PinBuffer(pinned, b));
          AdmitEffect(s, s, c, PinBuffer(pinned, b), t.(buffer := b, bufferId := r.buffer), fd, o);
        }
      } else {
        AdmitEffect(s, s, c, pinned, t, fd, o);
      }
    }
  }

  lemma SubmitEffect(g: Config, s: State, c: nat, r: Request, o: Oracle)
    requires Shape(g, s) && TasksOk(g, s) && c < |s.clients| && !IsControl(r)
    ensures var x := DispatchSubmit(g, s, c, r, o); x.Running? ==> DispatchEffect(s, x.state, c)
  {
    hide IdsAdvance, DispatchEffect, Reject, RejectAt, Admit, TasksOk, DispatchOpenat, DispatchClose, DispatchFileOp;
    var cl := s.clients[c];
    var i := FirstIdleTask(s.tasks);
    SetFileAdvance(cl, cl, 0);
    RejectEffect(s, s, c, cl, AdmissionError(g, s, cl, r), o);
    if r.Openat? {
      OpenatEffect(g, s, c, r, o);
    } else if r.Close? {
      CloseEffect(g, s, c, r.resource, o);
    } else if IsFileOp(r) {
      FileOpEffect(g, s, c, r, o);
    } else {
      RejectEffect(s, s, c, cl, EOVERFLOW, o);
      RejectEffect(s, s, c, cl, EAGAIN, o);
      if i < |s.tasks| {
        RejectAtEffect(g, s, s, c, cl, o.submit, o);
        AdmitEffect(s, s, c, cl, NewTask(s, c, KindOf(r)), None, o);
      }
    }
  }

  lemma QueueReplyEffect(s: State, c: nat, record: Record, fits: bool)
    requires c < |s.clients| == |s.logs| && |s.clients[c].files| > 0
    ensures var x := QueueReply(s, c, record, fits); x.Running? ==> DispatchEffect(s, x.state, c)
  {
    var cl := s.clients[c];
    SetFileAdvance(cl, cl.(request := None), 0);
    hide IdsAdvance;
  }

  lemma DispatchHasEffect(g: Config, s: State, c: nat, o: Oracle)
    requires Shape(g, s) && TasksOk(g, s) && c < |s.clients| && s.clients[c].request.Some?
    ensures var x := DispatchRequest(g, s, c, o); x.Running? ==> DispatchEffect(s, x.state, c)
  {
    hide DispatchEffect, QueueReply, DispatchRegisterFd, DispatchRegisterBuffer, DispatchRelease, DispatchSubmit;
    match s.clients[c].request.value
    case RegisterFd => RegisterFdEffect(g, s, c, o);
    case RegisterBuffer(data) => RegisterBufferEffect(g, s, c, data, o);
    case ReleaseResource(id) => ReleaseEffect(g, s, c, id, o);
    case GetStats => QueueReplyEffect(s, c, StatsResult, o.fits);
    case GetTrace(_, _) => QueueReplyEffect(s, c, TraceResult, o.fits);
    case r => SubmitEffect(g, s, c, r, o);
  }

  // ---- what any step does ------------------------------------------------------------

  /** Tasks in flight before and after are the same; new ones have new ids. */
  ghost predicate WorkFollows(s: State, s': State) {
    && |s'.tasks| == |s.tasks|
    && s.nextTaskId <= s'.nextTaskId
    && (forall id | id in s'.ops ::
          || (s.nextTaskId <= id)
          || (id in s.ops && s'.ops[id] == s.ops[id] && s.ops[id].slot < |s.tasks|
              && s'.tasks[s.ops[id].slot] == s.tasks[s.ops[id].slot]))
  }

  /** A client slot keeps its connection, or loses it for good, unless it was reusable.
      After disconnection nothing is registered any more. */
  ghost predicate ClientFollows(cl: Client, cl': Client) {
    || Reusable(cl)
    || (&& cl'.generation == cl.generation
        && (cl'.open ==> cl.open)
        && IdsAdvance(cl, cl')
        && (!cl.open ==>
              && (forall k | 0 <= k < |cl.files| :: cl'.files[k].registered ==> cl.files[k].registered)
              && (forall b | 0 <= b < |cl.buffers| :: cl'.buffers[b].registered ==> cl.buffers[b].registered)))
  }

  ghost predicate Follows(s: State, s': State) {
    && WorkFollows(s, s')
    && |s'.clients| == |s.clients|
    && (forall c | 0 <= c < |s.clients| :: ClientFollows(s.clients[c], s'.clients[c]))
  }

  lemma SameClientFollows(cl: Client)
    ensures ClientFollows(cl, cl)
  {
  }

  /** Only client `c` changed. */
  lemma OneClientFollows(s: State, s': State, c: nat)
    requires c < |s.clients| == |s'.clients| && s'.clients == s.clients[c := s'.clients[c]]
    requires WorkFollows(s, s') && ClientFollows(s.clients[c], s'.clients[c])
    ensures Follows(s, s')
  {
    hide ClientFollows, WorkFollows;
    forall d | 0 <= d < |s.clients| && d != c ensures ClientFollows(s.clients[d], s'.clients[d]) {
      SameClientFollows(s.clients[d]);
    }
  }

  lemma WorkEvolves(g: Config, s: State, s': State)
    requires TasksOk(g, s) && OpsOk(s) && (SameWork(s, s') || Admitted(s, s'))
    ensures WorkFollows(s, s')
  {
    hide WorksOn, TaskOk;
  }

  lemma DispatchFollows(g: Config, s: State, c: nat, o: Oracle)
    requires Inv(g, s) && c < |s.clients| && s.clients[c].open && s.clients[c].request.Some?
    ensures var x := DispatchRequest(g, s, c, o); x.Running? ==> Follows(s, x.state)
  {
    hide DispatchRequest, IdsAdvance, TasksOk, OpsOk, LedgerOk, TableOk, SessionsOk, Counted, ClientsOk;
    hide SameWork, Admitted, WorkFollows;
    var x := DispatchRequest(g, s, c, o);
    DispatchHasEffect(g, s, c, o);
    if x.Running? {
      WorkEvolves(g, s, x.state);
      OneClientFollows(s, x.state, c);
    }
  }

  /** The record of client `c` changes without new ids, registrations or connection. */
  predicate Shrinks(cl: Client, cl': Client) {
    && |cl'.files| == |cl.files| && |cl'.buffers| == |cl.buffers|
    && cl'.generation == cl.generation && (cl'.open ==> cl.open) && cl'.nextId == cl.nextId
    && (forall k | 0 <= k < |cl.files| ::
          (cl'.files[k].id == 0 || cl'.files[k].id == cl.files[k].id)
          && (!cl.open && cl'.files[k].registered ==> cl.files[k].registered))
    && (forall b | 0 <= b < |cl.buffers| ::
          (cl'.buffers[b].id == 0 || cl'.buffers[b].id == cl.buffers[b].id)
          && (!cl.open && cl'.buffers[b].registered ==> cl.buffers[b].registered))
  }

  lemma ShrinkFollows(cl: Client, cl': Client)
    requires Shrinks(cl, cl')
    ensures ClientFollows(cl, cl')
  {
    assert forall n | 0 <= n < |cl.files| + |cl.buffers| :: IdAt(cl', n) == 0 || IdAt(cl', n) == IdAt(cl, n);
  }

  /** A step that leaves the tasks alone and only shrinks client `c`. */
  lemma IdleStepFollows(g: Config, s: State, s': State, c: nat)
    requires TasksOk(g, s) && OpsOk(s) && SameWork(s, s')
    requires c < |s.clients| == |s'.clients| && s'.clients == s.clients[c := s'.clients[c]]
    requires Shrinks(s.clients[c], s'.clients[c])
    ensures Follows(s, s')
  {
    hide TasksOk, OpsOk, SameWork, WorkFollows, Shrinks, ClientFollows;
    WorkEvolves(g, s, s');
    ShrinkFollows(s.clients[c], s'.clients[c]);
    OneClientFollows(s, s', c);
  }

  lemma OpenFollows(g: Config, s: State)
    requires Inv(g, s)
    ensures Follows(s, OpenClient(g, s))
  {
    hide TasksOk, OpsOk, LedgerOk, TableOk, SessionsOk, Counted, ClientsOk, WorkFollows;
    var s' := OpenClient(g, s);
    WorkEvolves(g, s, s');
    var c := FirstReusable(s.clients);
    forall d | 0 <= d < |s.clients| ensures ClientFollows(s.clients[d], s'.clients[d]) {
      SameClientFollows(s.clients[d]);
    }
  }

  /** The tasks stay, and client `c` only shrinks. */
  ghost predicate OnlyShrinks(s: State, s': State, c: nat) {
    && SameWork(s, s') && c < |s.clients| == |s'.clients|
    && s'.clients == s.clients[c := s'.clients[c]] && Shrinks(s.clients[c], s'.clients[c])
  }

  lemma CloseClientShrinks(s: State, c: nat)
    requires c < |s.clients|
    ensures OnlyShrinks(s, CloseClient(s, c), c)
  {
  }

  lemma ReceiveFdShrinks(s: State, c: nat)
    requires c < |s.clients|
    ensures OnlyShrinks(s, ReceiveFd(s, c), c)
  {
    CloseClientShrinks(CloseFd(s.(issued := s.issued + 1), s.issued), c);
    hide CloseClient;
  }

  lemma ReplyHandshakeShrinks(s: State, c: nat, accepted: bool, fits: bool)
    requires c < |s.clients| == |s.logs|
    ensures var r := ReplyHandshake(s, c, accepted, fits); r.Running? ==> OnlyShrinks(s, r.state, c)
  {
  }

  lemma AcceptRequestShrinks(s: State, c: nat, r: Request)
    requires c < |s.clients|
    ensures OnlyShrinks(s, AcceptRequest(s, c, r), c)
  {
    CloseClientShrinks(s, c);
    hide CloseClient;
  }

  lemma TryReleaseFileShrinks(g: Config, s: State, c: nat, k: nat, updates: bool)
    requires c < |s.clients| && k < |s.clients[c].files|
    ensures var r := TryReleaseFile(g, s, c, k, updates); r.Running? ==> OnlyShrinks(s, r.state, c)
  {
    var cl := s.clients[c];
    assert Shrinks(cl, cl) && Shrinks(cl, SetFile(cl, k, FREE_FILE));
    hide Shrinks;
    assert s.clients[c := cl] == s.clients;
  }

  lemma TryReleaseBufferShrinks(s: State, c: nat, b: nat)
    requires c < |s.clients| && b < |s.clients[c].buffers|
    ensures OnlyShrinks(s, TryReleaseBuffer(s, c, b), c)
  {
  }

  lemma ConnectionFollows(g: Config, s: State, e: Event)
    requires Inv(g, s) && Shape(g, s) && Enabled(g, s, e)
    requires e.FdArrives? || e.Handshake? || e.Parsed? || e.Disconnect? || e.SweepFile? || e.SweepBuffer?
    ensures var r := Step(g, s, e); r.Running? ==> Follows(s, r.state)
  {
    hide TasksOk, OpsOk, LedgerOk, TableOk, SessionsOk, Counted, ClientsOk, Follows, SameWork, Shrinks;
    hide CloseClient, ReceiveFd, ReplyHandshake, AcceptRequest, TryReleaseFile, TryReleaseBuffer;
    var r := Step(g, s, e);
    match e {
      case FdArrives(c) => ReceiveFdShrinks(s, c);
      case Handshake(c, accepted, fits) => ReplyHandshakeShrinks(s, c, accepted, fits);
      case Parsed(c, request) => AcceptRequestShrinks(s, c, request);
      case SweepFile(c, k, updates) => TryReleaseFileShrinks(g, s, c, k, updates);
      case SweepBuffer(c, b) => TryReleaseBufferShrinks(s, c, b);
      case Disconnect(c) => CloseClientShrinks(s, c);
    }
    if r.Running? {
      IdleStepFollows(g, s, r.state, e.client);
    }
  }

  lemma SettledShrinks(g: Config, s: State, i: nat, q: Cqe)
    requires Inv(g, s) && i < |s.tasks| && s.tasks[i].active && KernelMayAnswer(s.tasks[i], q)
    ensures Shrinks(s.clients[s.tasks[i].client], Settle(g, s, i, q).clients[s.tasks[i].client])
  {
    hide Inv, Settle, SettledFiles, SettledBuffers, LedgerOk, OpsOk, TableOk, SessionOk;
    Around(g, s, i);
    var t := s.tasks[i];
    var cl := s.clients[t.client];
    var p := ProductOf(cl, t, q);
    SettleTouches(g, s, i, q);
    ProductSound(g, cl, t.client, t, q);
    SettledFilesOk(g, s, cl, t.client, t, p);
    SettledBuffersOk(g, cl, t.client, t, q);
    SettledRegistration(g, s, cl, t.client, t, p);
  }

  lemma ShrinksTwice(a: Client, b: Client, c: Client)
    requires Shrinks(a, b) && Shrinks(b, c)
    ensures Shrinks(a, c)
  {
  }

  lemma OnlyShrinksTwice(s: State, s1: State, s2: State, c: nat)
    requires OnlyShrinks(s, s1, c) && OnlyShrinks(s1, s2, c)
    ensures OnlyShrinks(s, s2, c)
  {
    hide Shrinks;
    ShrinksTwice(s.clients[c], s1.clients[c], s2.clients[c]);
  }

  /** What the releases after a completion do. */
  lemma ReleasesShrink(g: Config, s: State, c: nat, k: int, b: int, releases: bool)
    requires c < |s.clients|
    ensures
      var r := ReleaseFileAfter(g, s, c, k, releases);
      r.Running? ==> OnlyShrinks(s, ReleaseBufferAfter(r.state, c, b), c)
  {
    hide TryReleaseFile, TryReleaseBuffer;
    var r := ReleaseFileAfter(g, s, c, k, releases);
    if 0 <= k < |s.clients[c].files| { TryReleaseFileShrinks(g, s, c, k, releases); }
    if r.Running? {
      assert OnlyShrinks(s, r.state, c);
      if 0 <= b < |r.state.clients[c].buffers| { TryReleaseBufferShrinks(r.state, c, b); }
      OnlyShrinksTwice(s, r.state, ReleaseBufferAfter(r.state, c, b), c);
    }
  }

  lemma RetireWork(g: Config, s: State, i: nat, s': State)
    requires OpsOk(s) && i < |s.tasks| && s.tasks[i].active
    requires s'.tasks == s.tasks[i := IDLE_TASK] && s'.ops == s.ops - {s.tasks[i].id} && s'.nextTaskId == s.nextTaskId
    ensures WorkFollows(s, s')
  {
    hide WorksOn;
    forall id | id in s'.ops ensures s'.tasks[s.ops[id].slot] == s.tasks[s.ops[id].slot] {
      assert s.tasks[s.ops[id].slot].id == id;
    }
  }

  lemma ReapFollows(g: Config, s: State, id: nat, q: Cqe)
    requires Inv(g, s) && id in s.ops && KernelMayAnswer(s.tasks[s.ops[id].slot], q)
    ensures var r := ReapOne(g, s, id, q); r.Running? ==> Follows(s, r.state)
  {
    hide LedgerOk, TableOk, SessionsOk, Counted, TasksOk, ClientsOk;
    ReapFinds(g, s, id);
    hide Inv, Settle, ReleaseFileAfter, ReleaseBufferAfter, Shrinks, ClientFollows, WorkFollows;
    hide Settling, LedgerOk, OpsOk, TableOk, SessionOk;
    var i := s.ops[id].slot;
    Around(g, s, i);
    var t := s.tasks[i];
    var c := t.client;
    var r := CompleteTask(g, s, i, q);
    if r.Running? {
      var s1 := Settle(g, s, i, q);
      SettleTouches(g, s, i, q);
      SettledShrinks(g, s, i, q);
      ReleasesShrink(g, s1, c, t.file, t.buffer, q.releases);
      ShrinksTwice(s.clients[c], s1.clients[c], r.state.clients[c]);
      ShrinkFollows(s.clients[c], r.state.clients[c]);
      RetireWork(g, s, i, r.state);
      OneClientFollows(s, r.state, c);
    }
  }

  lemma StepFollows(g: Config, s: State, e: Event)
    requires Inv(g, s) && Shape(g, s) && Enabled(g, s, e)
    ensures var r := Step(g, s, e); r.Running? ==> Follows(s, r.state)
  {
    hide Inv, Follows;
    match e
    case Connect => OpenFollows(g, s);
    case Dispatch(c, o) => DispatchFollows(g, s, c, o);
    case Reap(id, q) => ReapFinds(g, s, id); ReapFollows(g, s, id, q);
    case _ => ConnectionFollows(g, s, e);
  }
}
