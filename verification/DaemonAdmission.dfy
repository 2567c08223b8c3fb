/** Admission keeps the invariant: every task that enters the ring, and every one of the
    refusals that undo what was prepared for it. */
module DaemonAdmission {
  import opened Protocol
  import opened DaemonState
  import opened DaemonSteps
  import opened DaemonInvariant
  import opened DaemonFrame
  import opened DaemonSafety

  /** What a new task `t` in idle slot `i` demands of the client record it comes with. */
  ghost predicate Admissible(g: Config, s: State, c: nat, cl': Client, i: nat, t: Task) {
    && Shape(g, s) && c < |s.clients| && i < |s.tasks| && !s.tasks[i].active
    && t.active && t.client == c && t.id == s.nextTaskId < TASK_ID_RESERVED
    && |cl'.files| == g.fileSlots && |cl'.buffers| == g.bufferSlots
    && ClientOk(g, cl') && Serving(cl') && TaskOk(g, cl', t)
    && KeepsOthers(s.clients[c], cl', c, IDLE_TASK)
    && cl'.outstanding == s.clients[c].outstanding
    && cl'.outstandingCredit == s.clients[c].outstandingCredit
    && (t.credit ==> cl'.outstandingCredit < g.creditLimit)
    && (forall k | 0 <= k < |cl'.files| ::
          cl'.files[k].inFlight == s.clients[c].files[k].inFlight + One(UsesFile(c, k), t))
    && (forall b | 0 <= b < |cl'.buffers| ::
          cl'.buffers[b].inFlight == s.clients[c].buffers[b].inFlight + One(UsesBuffer(c, b), t))
  }

  /** `s1` is `s` with the table and ledger that go with the new task. */
  lemma AdmitKeeps(g: Config, s: State, s1: State, c: nat, cl': Client, i: nat, t: Task,
                   fd: Option<Fd>, o: Oracle)
    requires Inv(g, s) && Admissible(g, s, c, cl', i, t) && Serving(s.clients[c])
    requires s1 == s.(table := s1.table, ledger := s1.ledger)
    requires if t.kind == KClose then fd == t.closeFd
             else 0 <= t.file < |cl'.files| ==> fd == cl'.files[t.file].fd
    requires var r := Admit(s1, c, cl', i, t, fd, o);
             r.Running? ==> TableOk(g, r.state) && LedgerOk(r.state)
    ensures var r := Admit(s1, c, cl', i, t, fd, o); r.Running? ==> Inv(g, r.state)
  {
    hide TasksOk, LedgerOk, TableOk, SessionsOk;
    var r := Admit(s1, c, cl', i, t, fd, o);
    if r.Running? {
      var s' := r.state;
      assert s.tasks[i] == IDLE_TASK by { IdleIsClear(g, s, i); }
      assert SessionOk(s, c) by { OpenSession(s, c); }
      assert s.nextTaskId !in s.ops by { NextIsNew(g, s); }
      AdmittedClientOk(g, cl', s'.clients[c], t);
      assert OpsFollow(s, s', s.tasks[i], t, i);
      SessionAdmit(g, s, s', c, i);
      InvFrame(g, s, s', c, i);
    }
  }

  lemma AdmittedClientOk(g: Config, cl: Client, cl': Client, t: Task)
    requires ClientOk(g, cl) && TaskOk(g, cl, t)
    requires t.credit ==> cl.outstandingCredit < g.creditLimit
    requires cl' == cl.(request := None, outstanding := cl'.outstanding,
                        outstandingCredit := cl.outstandingCredit + if t.credit then 1 else 0)
    ensures ClientOk(g, cl') && TaskOk(g, cl', t)
  {
    assert forall n | 0 <= n < |cl.files| + |cl.buffers| :: IdAt(cl', n) == IdAt(cl, n);
  }

  lemma IdleIsClear(g: Config, s: State, i: nat)
    requires TasksOk(g, s) && i < |s.tasks| && !s.tasks[i].active
    ensures s.tasks[i] == IDLE_TASK
  {
  }

  lemma OpenSession(s: State, c: nat)
    requires SessionsOk(s) && c < |s.clients| && s.clients[c].open
    ensures SessionOk(s, c)
  {
  }

  lemma NextIsNew(g: Config, s: State)
    requires TasksOk(g, s) && OpsOk(s)
    ensures s.nextTaskId !in s.ops
  {
  }

  // ---- NOP, TIMEOUT, CANCEL ----------------------------------------------------------

  lemma DispatchPlainKeeps(g: Config, s: State, c: nat, r: Request, o: Oracle)
    requires Inv(g, s) && c < |s.clients| && Serving(s.clients[c])
    requires r.Nop? || r.Timeout? || r.Cancel?
    requires AdmissionError(g, s, s.clients[c], r) == 0
    ensures var x := DispatchPlain(s, c, r, o); x.Running? ==> Inv(g, x.state)
  {
    hide TasksOk, LedgerOk, TableOk, SessionsOk, OpsOk, Counted;
    var i := FirstIdleTask(s.tasks);
    if s.nextTaskId >= TASK_ID_RESERVED {
      RejectKeeps(g, s, c, EOVERFLOW, o);
    } else if i == |s.tasks| {
      RejectKeeps(g, s, c, EAGAIN, o);
    } else if o.submit != 0 {
      RejectAtKeeps(g, s, c, i, o.submit, o);
    } else {
      var t := NewTask(s, c, KindOf(r));
      var x := Admit(s, c, s.clients[c], i, t, None, o);
      if x.Running? {
        AdmitFds(g, s, c, s.clients[c], i, t, None, o);
        AdmitKeeps(g, s, s, c, s.clients[c], i, t, None, o);
      }
    }
  }

  /** Admission of anything but a CLOSE moves no fd. */
  lemma AdmitFds(g: Config, s: State, c: nat, cl': Client, i: nat, t: Task, fd: Option<Fd>, o: Oracle)
    requires Inv(g, s) && Admissible(g, s, c, cl', i, t) && t.closeFd.None?
    requires cl'.received == s.clients[c].received
    requires forall k | 0 <= k < |cl'.files| ::
               cl'.files[k].fd == s.clients[c].files[k].fd && cl'.files[k].registered == s.clients[c].files[k].registered
    ensures var x := Admit(s, c, cl', i, t, fd, o); x.Running? ==> TableOk(g, x.state) && LedgerOk(x.state)
  {
    hide TasksOk, SessionsOk, OpsOk, Counted, ClientOk;
    var x := Admit(s, c, cl', i, t, fd, o);
    if x.Running? {
      LedgerSame(s, x.state);
      TableFrame(g, s, x.state, c, i, 0) by {
        assert EntryOk(g, s.table, c, 0, s.clients[c].files[0]);
      }
    }
  }

  // ---- reserved result slots -------------------------------------------------------------

  /** Reserving an idle slot under a new id. */
  lemma ReserveOk(g: Config, cl: Client, k: nat, a: Allocation)
    requires ClientOk(g, cl) && k < |cl.files| && IdleFile(cl.files[k])
    requires a.next < U32 && a.id != 0 && !IdInUse(cl, a.id)
    ensures ClientOk(g, Reserve(cl.(nextId := a.next), k, a.id))
  {
    var f := FileSlot(a.id, None, 1, false, false);
    var cl' := Reserve(cl.(nextId := a.next), k, a.id);
    SetFileOk(g, cl, k, f);
    assert forall n | 0 <= n < |cl.files| + |cl.buffers| :: IdAt(cl', n) == IdAt(SetFile(cl, k, f), n);
  }

  /** Undoing a reservation leaves the slot as it was, and the counter at the id that
      was given up. */
  lemma UnreserveKeeps(g: Config, s: State, c: nat, i: nat, k: nat, id: nat, error: nat, o: Oracle)
    requires Inv(g, s) && c < |s.clients| && Serving(s.clients[c]) && error != 0
    requires i < |s.tasks| && !s.tasks[i].active
    requires k < |s.clients[c].files| && IdleFile(s.clients[c].files[k]) && id < U32
    ensures var r := RejectAt(SetClient(s, c, SetFile(s.clients[c].(nextId := id), k, FREE_FILE)), c, i, error, o);
            r.Running? ==> Inv(g, r.state)
  {
    var cl := s.clients[c];
    var s1 := SetClient(s, c, cl.(nextId := id));
    assert SetFile(cl.(nextId := id), k, FREE_FILE).files == cl.files by {
      assert FileOk(cl.open, cl.files[k]);
    }
    hide Inv;
    CounterKeeps(g, s, c, id);
    RejectAtKeeps(g, s1, c, i, error, o);
  }

  lemma DispatchOpenatKeeps(g: Config, s: State, c: nat, r: Request, o: Oracle)
    requires Inv(g, s) && c < |s.clients| && Serving(s.clients[c]) && r.Openat?
    requires AdmissionError(g, s, s.clients[c], r) == 0
    ensures var x := DispatchOpenat(g, s, c, r, o); x.Running? ==> Inv(g, x.state)
  {
    hide Inv;
    var cl := s.clients[c];
    var k := FirstIdleFile(cl.files);
    var a := Allocate(cl);
    var i := FirstIdleTask(s.tasks);
    AllocateSound(g, s, c);
    if s.nextTaskId >= TASK_ID_RESERVED {
      RejectKeeps(g, s, c, EOVERFLOW, o);
    } else if k == |cl.files| {
      RejectKeeps(g, s, c, EAGAIN, o);
    } else if a.id == 0 || i == |s.tasks| {
      CounterKeeps(g, s, c, a.next);
      RejectKeeps(g, SetClient(s, c, cl.(nextId := a.next)), c, if a.id == 0 then EOVERFLOW else EAGAIN, o);
    } else if o.submit != 0 {
      UnreserveKeeps(g, s, c, i, k, a.id, o.submit, o);
    } else {
      AdmitOpenat(g, s, c, r, i, k, a, o);
    }
  }

  lemma AdmitOpenat(g: Config, s: State, c: nat, r: Request, i: nat, k: nat, a: Allocation, o: Oracle)
    requires Inv(g, s) && c < |s.clients| && Serving(s.clients[c]) && r.Openat?
    requires AdmissionError(g, s, s.clients[c], r) == 0 && s.nextTaskId < TASK_ID_RESERVED
    requires i < |s.tasks| && !s.tasks[i].active
    requires k < |s.clients[c].files| && IdleFile(s.clients[c].files[k])
    requires a.next < U32 && a.id != 0 && !IdInUse(s.clients[c], a.id)
    ensures
      var cl' := Reserve(s.clients[c].(nextId := a.next), k, a.id);
      var t := NewTask(s, c, KOpenat).(result := k, resultId := a.id, length := |r.data|);
      var x := Admit(s, c, cl', i, t, None, o);
      x.Running? ==> Inv(g, x.state)
  {
    hide TasksOk, LedgerOk, TableOk, SessionsOk, OpsOk, Counted;
    var cl := s.clients[c];
    var cl' := Reserve(cl.(nextId := a.next), k, a.id);
    var t := NewTask(s, c, KOpenat).(result := k, resultId := a.id, length := |r.data|);
    ReserveOk(g, cl, k, a);
    assert FileOk(cl.open, cl.files[k]);
    AdmitFds(g, s, c, cl', i, t, None, o);
    AdmitKeeps(g, s, s, c, cl', i, t, None, o);
  }

  // ---- CLOSE ---------------------------------------------------------------------------------

  lemma DispatchCloseKeeps(g: Config, s: State, c: nat, r: Request, o: Oracle)
    requires Inv(g, s) && c < |s.clients| && Serving(s.clients[c]) && r.Close?
    requires AdmissionError(g, s, s.clients[c], r) == 0
    ensures var x := DispatchClose(g, s, c, r.resource, o); x.Running? ==> Inv(g, x.state)
  {
    var cl := s.clients[c];
    var k := FindFile(cl.files, r.resource);
    var i := FirstIdleTask(s.tasks);
    if k == |cl.files| || cl.files[k].closing {
      RejectKeeps(g, s, c, ENOENT, o);
    } else if cl.files[k].inFlight != 0 || cl.files[k].fd.None? {
      RejectKeeps(g, s, c, EBUSY, o);
    } else if s.nextTaskId >= TASK_ID_RESERVED {
      RejectKeeps(g, s, c, EOVERFLOW, o);
    } else if i == |s.tasks| {
      RejectKeeps(g, s, c, EAGAIN, o);
    } else if o.update == 0 && o.submit != 0 && o.restores {
      assert s.table[GlobalFile(g, c, k) := cl.files[k].fd.value] == s.table by {
        assert EntryOk(g, s.table, c, k, cl.files[k]);
      }
      RejectAtKeeps(g, s, c, i, o.submit, o);
    } else if o.update == 0 && o.submit == 0 {
      AdmitClose(g, s, c, r, i, k, o);
    }
  }

  lemma AdmitClose(g: Config, s: State, c: nat, r: Request, i: nat, k: nat, o: Oracle)
    requires Inv(g, s) && c < |s.clients| && Serving(s.clients[c]) && r.Close?
    requires AdmissionError(g, s, s.clients[c], r) == 0 && s.nextTaskId < TASK_ID_RESERVED
    requires i < |s.tasks| && !s.tasks[i].active
    requires k < |s.clients[c].files| && s.clients[c].files[k].registered && s.clients[c].files[k].id == r.resource
    requires s.clients[c].files[k].inFlight == 0 && s.clients[c].files[k].fd.Some?
    ensures
      var cl := s.clients[c];
      var fd := cl.files[k].fd;
      var t := NewTask(s, c, KClose).(file := k, resourceId := r.resource, closeFd := fd);
      var s1 := Move(s.(table := s.table - {GlobalFile(g, c, k)}), fd.value, CloseOp(i));
      var x := Admit(s1, c, SetFile(cl, k, FileSlot(r.resource, None, 1, false, true)), i, t, fd, o);
      x.Running? ==> Inv(g, x.state)
  {
    hide TasksOk, LedgerOk, TableOk, SessionsOk, OpsOk, Counted;
    var cl := s.clients[c];
    var fd := cl.files[k].fd;
    var f := FileSlot(r.resource, None, 1, false, true);
    var cl' := SetFile(cl, k, f);
    var t := NewTask(s, c, KClose).(file := k, resourceId := r.resource, closeFd := fd);
    var s1 := Move(s.(table := s.table - {GlobalFile(g, c, k)}), fd.value, CloseOp(i));
    assert FileOk(cl.open, cl.files[k]);
    SetFileOk(g, cl, k, f);
    var x := Admit(s1, c, cl', i, t, fd, o);
    if x.Running? {
      AdmitCloseFds(g, s, x.state, c, i, k, fd.value);
      AdmitKeeps(g, s, s1, c, cl', i, t, fd, o);
    }
  }

  /** The fd leaves its slot and the table and goes to the kernel with the operation. */
  lemma AdmitCloseFds(g: Config, s: State, s': State, c: nat, i: nat, k: nat, fd: Fd)
    requires Touches(g, s, s', c, i) && LedgerOk(s) && TableOk(g, s)
    requires i < |s.tasks| && !s.tasks[i].active && s'.tasks[i].active && s'.tasks[i].closeFd == Some(fd)
    requires k < |s.clients[c].files| && s.clients[c].files[k].fd == Some(fd)
    requires s'.clients[c].received == s.clients[c].received
    requires s'.clients[c].files == s.clients[c].files[k := s'.clients[c].files[k]]
    requires s'.clients[c].files[k].fd.None?
    requires s'.table == s.table - {GlobalFile(g, c, k)}
    requires s'.ledger == s.ledger[fd := CloseOp(i)] && s'.issued == s.issued && s'.closed == s.closed
    ensures LedgerOk(s') && TableOk(g, s')
  {
    hide LedgerOk;
    Located(s, InSlot(c, k), fd);
    LedgerMove(s, s', fd, CloseOp(i));
    TableFrame(g, s, s', c, i, k);
  }

  // ---- operations on a registered file -----------------------------------------------------

  lemma PinnedOk(g: Config, cl: Client, k: nat)
    requires ClientOk(g, cl) && k < |cl.files| && cl.files[k].registered
    ensures ClientOk(g, PinFile(cl, k))
  {
    assert FileOk(cl.open, cl.files[k]);
    SetFileOk(g, cl, k, cl.files[k].(inFlight := cl.files[k].inFlight + 1));
  }

  lemma PinnedBufferOk(g: Config, cl: Client, b: nat)
    requires ClientOk(g, cl) && b < |cl.buffers| && cl.buffers[b].registered
    ensures ClientOk(g, PinBuffer(cl, b))
  {
    assert BufferOk(g, cl.open, cl.buffers[b]);
    SetBufferOk(g, cl, b, cl.buffers[b].(inFlight := cl.buffers[b].inFlight + 1));
  }

  /** The fixed-file table resolves to the fd in the slot. */
  lemma ResolvesToSlot(g: Config, s: State, c: nat, k: nat, kind: Kind)
    requires Inv(g, s) && c < |s.clients| && k < |s.clients[c].files| && s.clients[c].files[k].registered
    ensures ResolveFd(g, s, c, k, kind) == s.clients[c].files[k].fd
  {
    assert FileOk(s.clients[c].open, s.clients[c].files[k]);
    assert EntryOk(g, s.table, c, k, s.clients[c].files[k]);
  }

  /** What a file operation has established when it is about to be submitted. */
  ghost predicate ReadyToSubmit(g: Config, s: State, c: nat, r: Request, k: nat, i: nat) {
    && Inv(g, s) && c < |s.clients| && Serving(s.clients[c]) && IsFileOp(r)
    && AdmissionError(g, s, s.clients[c], r) == 0 && s.nextTaskId < TASK_ID_RESERVED
    && i < |s.tasks| && !s.tasks[i].active
    && k < |s.clients[c].files| && s.clients[c].files[k].registered && s.clients[c].files[k].id == r.resource
  }

  lemma AdmitOnFile(g: Config, s: State, c: nat, r: Request, k: nat, i: nat, o: Oracle)
    requires ReadyToSubmit(g, s, c, r, k, i) && !r.Accept? && !r.SockReadFixed? && !r.SockWriteFixed?
    ensures var x := Admit(s, c, PinFile(s.clients[c], k), i, FileTask(s, c, r, k), s.clients[c].files[k].fd, o);
            x.Running? ==> Inv(g, x.state)
  {
    hide TasksOk, LedgerOk, TableOk, SessionsOk, OpsOk, Counted;
    PinnedOk(g, s.clients[c], k);
    var cl', t := PinFile(s.clients[c], k), FileTask(s, c, r, k);
    AdmitFds(g, s, c, cl', i, t, s.clients[c].files[k].fd, o);
    AdmitKeeps(g, s, s, c, cl', i, t, s.clients[c].files[k].fd, o);
  }

  lemma AdmitFixed(g: Config, s: State, c: nat, r: Request, k: nat, b: nat, i: nat, o: Oracle)
    requires ReadyToSubmit(g, s, c, r, k, i) && (r.SockReadFixed? || r.SockWriteFixed?)
    requires b < |s.clients[c].buffers| && s.clients[c].buffers[b].registered && s.clients[c].buffers[b].id == r.buffer
    ensures
      var t := FileTask(s, c, r, k).(buffer := b, bufferId := r.buffer);
      var x := Admit(s, c, PinBuffer(PinFile(s.clients[c], k), b), i, t, s.clients[c].files[k].fd, o);
      x.Running? ==> Inv(g, x.state)
  {
    hide TasksOk, LedgerOk, TableOk, SessionsOk, OpsOk, Counted;
    var cl := s.clients[c];
    PinnedOk(g, cl, k);
    PinnedBufferOk(g, PinFile(cl, k), b);
    var cl' := PinBuffer(PinFile(cl, k), b);
    var t := FileTask(s, c, r, k).(buffer := b, bufferId := r.buffer);
    AdmitFds(g, s, c, cl', i, t, cl.files[k].fd, o);
    AdmitKeeps(g, s, s, c, cl', i, t, cl.files[k].fd, o);
  }

  lemma AdmitAccept(g: Config, s: State, c: nat, r: Request, k: nat, k': nat, a: Allocation, i: nat, o: Oracle)
    requires ReadyToSubmit(g, s, c, r, k, i) && r.Accept?
    requires k' < |s.clients[c].files| && IdleFile(s.clients[c].files[k'])
    requires a.next < U32 && a.id != 0 && !IdInUse(PinFile(s.clients[c], k), a.id)
    ensures
      var cl' := Reserve(PinFile(s.clients[c], k).(nextId := a.next), k', a.id);
      var t := FileTask(s, c, r, k).(result := k', resultId := a.id);
      var x := Admit(s, c, cl', i, t, s.clients[c].files[k].fd, o);
      x.Running? ==> Inv(g, x.state)
  {
    hide TasksOk, LedgerOk, TableOk, SessionsOk, OpsOk, Counted;
    var cl := s.clients[c];
    PinnedOk(g, cl, k);
    ReserveOk(g, PinFile(cl, k), k', a);
    assert FileOk(cl.open, cl.files[k']);
    var cl' := Reserve(PinFile(cl, k).(nextId := a.next), k', a.id);
    var t := FileTask(s, c, r, k).(result := k', resultId := a.id);
    AdmitFds(g, s, c, cl', i, t, cl.files[k].fd, o);
    AdmitKeeps(g, s, s, c, cl', i, t, cl.files[k].fd, o);
  }

  lemma DispatchAcceptKeeps(g: Config, s: State, c: nat, r: Request, k: nat, i: nat, o: Oracle)
    requires ReadyToSubmit(g, s, c, r, k, i) && r.Accept?
    requires k == FindFile(s.clients[c].files, r.resource) && i == FirstIdleTask(s.tasks)
    requires !s.clients[c].files[k].closing && s.clients[c].files[k].fd.Some?
    ensures var x := DispatchFileOp(g, s, c, r, o); x.Running? ==> Inv(g, x.state)
  {
    hide LedgerOk, TableOk, SessionsOk, Counted, TasksOk, OpsOk;
    var cl := s.clients[c];
    var pinned := PinFile(cl, k);
    var k' := FirstIdleFile(pinned.files);
    var a := Allocate(pinned);
    AllocateFromSound(pinned, pinned.nextId, |pinned.files| + |pinned.buffers|);
    ResolvesToSlot(g, s, c, k, KAccept);
    hide Inv, Admit, Reserve, PinFile, RejectAt, Allocate, FileTask, ResolveFd;
    if k' == |cl.files| {
      RejectAtKeeps(g, s, c, i, EAGAIN, o);
    } else if a.id == 0 {
      CounterKeeps(g, s, c, a.next);
      RejectAtKeeps(g, SetClient(s, c, cl.(nextId := a.next)), c, i, EOVERFLOW, o);
    } else if o.submit != 0 {
      UnreserveKeeps(g, s, c, i, k', a.id, o.submit, o);
    } else {
      AdmitAccept(g, s, c, r, k, k', a, i, o);
    }
  }

  lemma DispatchFileOpKeeps(g: Config, s: State, c: nat, r: Request, o: Oracle)
    requires Inv(g, s) && c < |s.clients| && Serving(s.clients[c]) && IsFileOp(r)
    requires AdmissionError(g, s, s.clients[c], r) == 0
    ensures var x := DispatchFileOp(g, s, c, r, o); x.Running? ==> Inv(g, x.state)
  {
    hide Inv;
    var cl := s.clients[c];
    var k := FindFile(cl.files, r.resource);
    var i := FirstIdleTask(s.tasks);
    if k == |cl.files| || cl.files[k].closing {
      RejectKeeps(g, s, c, ENOENT, o);
    } else if (r.Connect? || r.Accept?) && cl.files[k].fd.None? {
      RejectKeeps(g, s, c, EBADF, o);
    } else if BufferError(cl, r) != 0 {
      RejectKeeps(g, s, c, BufferError(cl, r), o);
    } else if s.nextTaskId >= TASK_ID_RESERVED {
      RejectKeeps(g, s, c, EOVERFLOW, o);
    } else if i == |s.tasks| {
      RejectKeeps(g, s, c, EAGAIN, o);
    } else if r.Accept? {
      DispatchAcceptKeeps(g, s, c, r, k, i, o);
    } else if o.submit != 0 {
      RejectAtKeeps(g, s, c, i, o.submit, o);
    } else {
      ResolvesToSlot(g, s, c, k, KindOf(r));
      if r.SockReadFixed? || r.SockWriteFixed? {
        AdmitFixed(g, s, c, r, k, FindBuffer(cl.buffers, r.buffer), i, o);
      } else {
        AdmitOnFile(g, s, c, r, k, i, o);
      }
    }
  }

  // ---- any request ---------------------------------------------------------------------------

  lemma DispatchKeeps(g: Config, s: State, c: nat, o: Oracle)
    requires Inv(g, s) && c < |s.clients| && s.clients[c].open && s.clients[c].request.Some?
    ensures var x := DispatchRequest(g, s, c, o); x.Running? ==> Inv(g, x.state)
  {
    assert ClientOk(g, s.clients[c]);
    var r := s.clients[c].request.value;
    assert Deliverable(g, r);
    hide Inv, ClientOk;
    match r
    case RegisterFd => DispatchRegisterFdKeeps(g, s, c, o);
    case RegisterBuffer(data) => DispatchRegisterBufferKeeps(g, s, c, data, o);
    case ReleaseResource(id) => DispatchReleaseKeeps(g, s, c, id, o);
    case GetStats => QueueReplyKeeps(g, s, c, StatsResult, o.fits);
    case GetTrace(_, _) => QueueReplyKeeps(g, s, c, TraceResult, o.fits);
    case _ => DispatchSubmitKeeps(g, s, c, r, o);
  }

  lemma DispatchSubmitKeeps(g: Config, s: State, c: nat, r: Request, o: Oracle)
    requires Inv(g, s) && c < |s.clients| && Serving(s.clients[c]) && !IsControl(r)
    ensures var x := DispatchSubmit(g, s, c, r, o); x.Running? ==> Inv(g, x.state)
  {
    hide Inv;
    var error := AdmissionError(g, s, s.clients[c], r);
    if error != 0 {
      RejectKeeps(g, s, c, error, o);
    } else if r.Openat? {
      DispatchOpenatKeeps(g, s, c, r, o);
    } else if r.Close? {
      DispatchCloseKeeps(g, s, c, r, o);
    } else if IsFileOp(r) {
      DispatchFileOpKeeps(g, s, c, r, o);
    } else {
      DispatchPlainKeeps(g, s, c, r, o);
    }
  }
}
