/** The answer to every submission: which errno is queued and exactly when, that a refusal
    leaves everything as it was, and what an acceptance does. */
module DaemonAnswers {
  import opened Protocol
  import opened DaemonState
  import opened DaemonSteps
  import opened DaemonInvariant
  import opened DaemonFrame
  import opened DaemonRuns
  import opened DaemonTheorems
  import opened DaemonControl
  import Encoder

  // ---- the daemon's checks, in its terms -----------------------------------------------------------

  /** What is wrong with the resources that the request names: the errno, or 0. */
  function ResourceError(cl: Client, r: Request): nat
    requires !IsControl(r)
  {
    if !NamesFile(KindOf(r)) then 0
    else
      var k := FindFile(cl.files, r.resource);
      if k == |cl.files| || cl.files[k].closing then ENOENT
      else if r.Close? then (if cl.files[k].inFlight != 0 || cl.files[k].fd.None? then EBUSY else 0)
      else if (r.Connect? || r.Accept?) && cl.files[k].fd.None? then EBADF
      else BufferError(cl, r)
  }

  /** No file slot is left for what the request would make. */
  predicate NoFileSlot(cl: Client, r: Request)
    requires !IsControl(r)
  {
    MakesFile(KindOf(r)) && forall k | 0 <= k < |cl.files| :: !IdleFile(cl.files[k])
  }

  predicate NoId(cl: Client, r: Request)
    requires !IsControl(r)
  {
    MakesFile(KindOf(r)) && Allocate(cl).id == 0
  }

  predicate NoTaskSlot(s: State) {
    forall i | 0 <= i < |s.tasks| :: s.tasks[i].active
  }

  /** The errno of the first check that fails, 0 if the request gets as far as the ring. OPENAT
      looks for its file slot and id before the task slot, ACCEPT after it. */
  function FirstError(g: Config, s: State, c: nat, r: Request): nat
    requires c < |s.clients| && !IsControl(r)
  {
    var cl := s.clients[c];
    if AdmissionError(g, s, cl, r) != 0 then AdmissionError(g, s, cl, r)
    else if ResourceError(cl, r) != 0 then ResourceError(cl, r)
    else if s.nextTaskId >= TASK_ID_RESERVED then EOVERFLOW
    else if r.Openat? && NoFileSlot(cl, r) then EAGAIN
    else if r.Openat? && NoId(cl, r) then EOVERFLOW
    else if NoTaskSlot(s) then EAGAIN
    else if NoFileSlot(cl, r) then EAGAIN
    else if NoId(cl, r) then EOVERFLOW
    else 0
  }

  function Errno(g: Config, s: State, c: nat, r: Request, o: Oracle): nat
    requires c < |s.clients| && !IsControl(r)
  {
    if FirstError(g, s, c, r) != 0 then FirstError(g, s, c, r) else o.submit
  }

  // ---- what comes of a submission --------------------------------------------------------------------

  /** The submission was refused: but for the answer, the count of refusals and the counter of
      ids, everything is as before. */
  ghost predicate Refused(s: State, s': State, c: nat, e: nat)
    requires c < |s.clients| == |s.logs|
  {
    && c < |s'.clients|
    && s' == s.(clients := s.clients[c := s.clients[c].(request := None, nextId := s'.clients[c].nextId)],
                rejected := s.rejected + 1,
                logs := s.logs[c := s.logs[c] + [SubmitResult(0, -(e as int))]])
  }

  predicate FirstIdle(tasks: seq<Task>, i: int) {
    0 <= i < |tasks| && !tasks[i].active && forall j | 0 <= j < i :: tasks[j].active
  }

  /** What the record `t` of the new task says, seen from the request. */
  predicate Describes(s: State, c: nat, r: Request, t: Task)
    requires c < |s.clients| && !IsControl(r)
  {
    var cl := s.clients[c];
    && t.active && t.id == s.nextTaskId && t.kind == KindOf(r) && t.credit == !r.Cancel?
    && t.client == c && t.generation == cl.generation
    && (if NamesFile(t.kind) then IsFile(cl, t.file, r.resource) else t.file == -1)
    && (if NamesBuffer(t.kind) then IsBuffer(cl, t.buffer, r.buffer) else t.buffer == -1)
    && (if MakesFile(t.kind) then FirstFree(cl.files, t.result) && t.resultId == Allocate(cl).id else t.result == -1)
    && (if r.Close? then 0 <= t.file < |cl.files| && t.closeFd == cl.files[t.file].fd else t.closeFd.None?)
    && (r.SockRead? || r.FileRead? || r.SockReadFixed? || r.Accept? ==> t.length == r.length)
  }

  /** The client's slots once task `t` is admitted: the file it works on has one pin more, or is
      the kernel's to close; so has its buffer; and a slot is reserved for what it makes. */
  predicate SlotsTaken(cl: Client, cl': Client, t: Task) {
    && |cl'.files| == |cl.files| && |cl'.buffers| == |cl.buffers|
    && (forall k | 0 <= k < |cl.files| ::
          cl'.files[k] ==
            if k == t.file then
              (if t.kind == KClose then FileSlot(cl.files[k].id, None, 1, false, true)
               else cl.files[k].(inFlight := cl.files[k].inFlight + 1))
            else if k == t.result then FileSlot(t.resultId, None, 1, false, false)
            else cl.files[k])
    && (forall b | 0 <= b < |cl.buffers| ::
          cl'.buffers[b] ==
            if b == t.buffer then cl.buffers[b].(inFlight := cl.buffers[b].inFlight + 1) else cl.buffers[b])
  }

  /** The submission was accepted: the first idle task slot has a record that describes it, the
      ring has the operation, its resources are taken, and the client knows the task id. */
  ghost predicate Accepted(g: Config, s: State, s': State, c: nat, r: Request)
    requires c < |s.clients| == |s.logs| && !IsControl(r)
  {
    && c < |s'.clients| && |s'.tasks| == |s.tasks|
    && (forall i | FirstIdle(s.tasks, i) ::
          var t, cl, cl' := s'.tasks[i], s.clients[c], s'.clients[c];
          && Describes(s, c, r, t) && SlotsTaken(cl, cl', t)
          && var fd := if 0 <= t.file < |cl.files| then cl.files[t.file].fd else None;
             && (NamesFile(t.kind) ==> fd.Some?)
             && s'.tasks == s.tasks[i := t] && s'.ops == s.ops[t.id := Op(i, fd)]
             && s'.table == (if r.Close? then s.table - {GlobalFile(g, c, t.file)} else s.table))
    && var cl' := s'.clients[c];
       var credit := if r.Cancel? then 0 else 1;
       && s' == s.(clients := s.clients[c := s.clients[c].(request := None, nextId := cl'.nextId, files := cl'.files,
                     buffers := cl'.buffers, outstanding := s.clients[c].outstanding + 1,
                     outstandingCredit := s.clients[c].outstandingCredit + credit)],
                   tasks := s'.tasks, ops := s'.ops, table := s'.table, ledger := s'.ledger,
                   nextTaskId := s.nextTaskId + 1, accepted := s.accepted + 1,
                   outstanding := s.outstanding + 1, outstandingCredit := s.outstandingCredit + credit,
                   logs := s.logs[c := s.logs[c] + [SubmitResult(s.nextTaskId, 0)]])
  }

  /** The loop goes on: the answer fits, and the table did what a CLOSE asked of it. */
  predicate Runs(r: Request, atRing: bool, o: Oracle) {
    o.fits && (r.Close? && atRing ==> o.update == 0 && (o.submit == 0 || o.restores))
  }

  ghost predicate Comes(g: Config, s: State, c: nat, r: Request, o: Oracle, x: Outcome)
    requires c < |s.clients| == |s.logs| && !IsControl(r)
  {
    var e := Errno(g, s, c, r, o);
    && (x.Running? <==> Runs(r, FirstError(g, s, c, r) == 0, o))
    && (x.Running? ==> if e != 0 then Refused(s, x.state, c, e) else Accepted(g, s, x.state, c, r))
  }

  /** What the invariant says about idle slots and registered files. */
  ghost predicate Clean(g: Config, s: State, c: nat) {
    && c < |s.clients| == |s.logs|
    && (forall i | 0 <= i < |s.tasks| && !s.tasks[i].active :: s.tasks[i] == IDLE_TASK)
    && (forall k | 0 <= k < |s.clients[c].files| && IdleFile(s.clients[c].files[k]) :: s.clients[c].files[k] == FREE_FILE)
    && (forall k | 0 <= k < |s.clients[c].files| && s.clients[c].files[k].registered ::
          && s.clients[c].files[k].fd.Some? && GlobalFile(g, c, k) in s.table
          && s.table[GlobalFile(g, c, k)] == s.clients[c].files[k].fd.value)
  }

  lemma InvClean(g: Config, s: State, c: nat)
    requires Inv(g, s) && c < |s.clients|
    ensures Clean(g, s, c)
  {
    hide LedgerOk, SessionsOk, Counted, OpsOk;
    forall k | 0 <= k < |s.clients[c].files|
      ensures IdleFile(s.clients[c].files[k]) ==> s.clients[c].files[k] == FREE_FILE
      ensures s.clients[c].files[k].registered ==>
        && s.clients[c].files[k].fd.Some? && GlobalFile(g, c, k) in s.table
        && s.table[GlobalFile(g, c, k)] == s.clients[c].files[k].fd.value
    {
      assert FileOk(s.clients[c].open, s.clients[c].files[k]);
      assert EntryOk(g, s.table, c, k, s.clients[c].files[k]);
    }
  }

  // ---- kind by kind ----------------------------------------------------------------------------

  /** A refusal from a state that differs at most in the client's id counter. */
  lemma RejectRefuses(s: State, c: nat, next: nat, e: nat, o: Oracle)
    requires c < |s.clients| == |s.logs|
    ensures
      var x := Reject(SetClient(s, c, s.clients[c].(nextId := next)), c, e, o);
      (x.Running? <==> o.fits) && (x.Running? ==> Refused(s, x.state, c, e))
    ensures
      var x := Reject(s, c, e, o);
      (x.Running? <==> o.fits) && (x.Running? ==> Refused(s, x.state, c, e))
  {
    var cl := s.clients[c];
    assert s.clients[c := cl.(nextId := next)][c := cl.(nextId := next, request := None)]
        == s.clients[c := cl.(nextId := next, request := None)];
  }

  lemma RejectAtSame(g: Config, s: State, s1: State, c: nat, i: nat, e: nat, o: Oracle)
    requires Clean(g, s, c) && s1.tasks == s.tasks && c < |s1.clients| == |s1.logs| && i < |s.tasks| && !s.tasks[i].active
    ensures RejectAt(s1, c, i, e, o) == Reject(s1, c, e, o)
  {
    assert s.tasks[i := IDLE_TASK] == s.tasks;
  }

  /** An admission with record `t`, from a state with the same log. */
  lemma AdmitAccepts(g: Config, s: State, s1: State, c: nat, cl1: Client, i: nat, t: Task, fd: Option<Fd>, r: Request, o: Oracle)
    requires c < |s.clients| == |s.logs| && !IsControl(r) && FirstIdle(s.tasks, i)
    requires s1 == s.(table := s1.table, ledger := s1.ledger)
    requires s1.table == if r.Close? then s.table - {GlobalFile(g, c, if t.file < 0 then 0 else t.file)} else s.table
    requires Describes(s, c, r, t) && SlotsTaken(s.clients[c], cl1, t)
    requires cl1 == s.clients[c].(nextId := cl1.nextId, files := cl1.files, buffers := cl1.buffers)
    requires fd == if 0 <= t.file < |s.clients[c].files| then s.clients[c].files[t.file].fd else None
    requires NamesFile(t.kind) ==> fd.Some?
    ensures
      var x := Admit(s1, c, cl1, i, t, fd, o);
      (x.Running? <==> o.fits) && (x.Running? ==> Accepted(g, s, x.state, c, r))
  {
    hide SlotsTaken, Allocate, IsFile, IsBuffer, FirstFree;
    var x := Admit(s1, c, cl1, i, t, fd, o);
    if x.Running? {
      forall j | FirstIdle(s.tasks, j) ensures j == i { }
      var cl' := x.state.clients[c];
      SlotsTakenSame(s.clients[c], cl1, cl', t);
    }
  }

  lemma SlotsTakenSame(cl: Client, cl1: Client, cl': Client, t: Task)
    requires SlotsTaken(cl, cl1, t) && cl'.files == cl1.files && cl'.buffers == cl1.buffers
    ensures SlotsTaken(cl, cl', t)
  {
  }

  /** Putting the pieces together: a check failed; the ring refused; the ring accepted. */
  lemma CheckedComes(g: Config, s: State, c: nat, r: Request, o: Oracle, x: Outcome, next: nat)
    requires c < |s.clients| == |s.logs| && !IsControl(r) && FirstError(g, s, c, r) != 0
    requires
      var e := FirstError(g, s, c, r);
      x == Reject(s, c, e, o) || x == Reject(SetClient(s, c, s.clients[c].(nextId := next)), c, e, o)
    ensures Comes(g, s, c, r, o, x)
  {
    hide FirstError, Reject, Refused, Accepted;
    RejectRefuses(s, c, next, FirstError(g, s, c, r), o);
  }

  lemma RingComes(g: Config, s: State, c: nat, r: Request, o: Oracle, x: Outcome, i: nat, next: nat)
    requires Clean(g, s, c) && !IsControl(r) && FirstError(g, s, c, r) == 0 && o.submit != 0
    requires i < |s.tasks| && !s.tasks[i].active && (r.Close? ==> o.update == 0 && o.restores)
    requires x == RejectAt(s, c, i, o.submit, o) || x == RejectAt(SetClient(s, c, s.clients[c].(nextId := next)), c, i, o.submit, o)
    ensures Comes(g, s, c, r, o, x)
  {
    hide FirstError, Reject, RejectAt, Refused, Accepted;
    RejectRefuses(s, c, next, o.submit, o);
    RejectAtSame(g, s, s, c, i, o.submit, o);
    RejectAtSame(g, s, SetClient(s, c, s.clients[c].(nextId := next)), c, i, o.submit, o);
  }

  lemma AdmitComes(g: Config, s: State, s1: State, c: nat, cl1: Client, i: nat, t: Task, fd: Option<Fd>, r: Request, o: Oracle)
    requires c < |s.clients| == |s.logs| && !IsControl(r) && FirstIdle(s.tasks, i)
    requires s1 == s.(table := s1.table, ledger := s1.ledger)
    requires s1.table == if r.Close? then s.table - {GlobalFile(g, c, if t.file < 0 then 0 else t.file)} else s.table
    requires Describes(s, c, r, t) && SlotsTaken(s.clients[c], cl1, t)
    requires cl1 == s.clients[c].(nextId := cl1.nextId, files := cl1.files, buffers := cl1.buffers)
    requires fd == if 0 <= t.file < |s.clients[c].files| then s.clients[c].files[t.file].fd else None
    requires NamesFile(t.kind) ==> fd.Some?
    requires FirstError(g, s, c, r) == 0 && o.submit == 0 && (r.Close? ==> o.update == 0)
    ensures Comes(g, s, c, r, o, Admit(s1, c, cl1, i, t, fd, o))
  {
    hide FirstError, Admit, Refused, Accepted, Describes, SlotsTaken;
    AdmitAccepts(g, s, s1, c, cl1, i, t, fd, r, o);
  }

  /** The first idle slot as the daemon finds it. */
  lemma IdleFound(s: State)
    ensures
      var i := FirstIdleTask(s.tasks);
      (i == |s.tasks| <==> NoTaskSlot(s)) && (i < |s.tasks| ==> FirstIdle(s.tasks, i))
  {
  }

  lemma PlainComes(g: Config, s: State, c: nat, r: Request, o: Oracle)
    requires Clean(g, s, c) && !IsControl(r) && !NamesFile(KindOf(r)) && !r.Openat?
    requires AdmissionError(g, s, s.clients[c], r) == 0
    ensures Comes(g, s, c, r, o, DispatchPlain(s, c, r, o))
  {
    hide Comes, Reject, RejectAt, Admit, AdmissionError, NoTaskSlot, FirstIdle;
    var i := FirstIdleTask(s.tasks);
    IdleFound(s);
    var x := DispatchPlain(s, c, r, o);
    if FirstError(g, s, c, r) != 0 {
      CheckedComes(g, s, c, r, o, x, 0);
    } else if o.submit != 0 {
      RingComes(g, s, c, r, o, x, i, 0);
    } else {
      AdmitComes(g, s, s, c, s.clients[c], i, NewTask(s, c, KindOf(r)), None, r, o);
    }
  }

  lemma OpenatComes(g: Config, s: State, c: nat, r: Request, o: Oracle)
    requires Clean(g, s, c) && r.Openat? && AdmissionError(g, s, s.clients[c], r) == 0
    ensures Comes(g, s, c, r, o, DispatchOpenat(g, s, c, r, o))
  {
    hide Comes, Reject, RejectAt, Admit, AdmissionError, NoTaskSlot, FirstIdle, Allocate;
    var cl := s.clients[c];
    var k, i, a := FirstIdleFile(cl.files), FirstIdleTask(s.tasks), Allocate(cl);
    IdleFound(s);
    var x := DispatchOpenat(g, s, c, r, o);
    if FirstError(g, s, c, r) != 0 {
      CheckedComes(g, s, c, r, o, x, a.next);
    } else if o.submit != 0 {
      assert cl.files[k := FREE_FILE] == cl.files;
      RingComes(g, s, c, r, o, x, i, a.id);
    } else {
      var t := NewTask(s, c, KOpenat).(result := k, resultId := a.id, length := |r.data|);
      AdmitComes(g, s, s, c, Reserve(cl.(nextId := a.next), k, a.id), i, t, None, r, o);
    }
  }

  lemma CloseComes(g: Config, s: State, c: nat, r: Request, o: Oracle)
    requires Clean(g, s, c) && r.Close? && AdmissionError(g, s, s.clients[c], r) == 0
    ensures Comes(g, s, c, r, o, DispatchClose(g, s, c, r.resource, o))
  {
    hide Comes, Reject, RejectAt, Admit, AdmissionError, NoTaskSlot, FirstIdle;
    var cl := s.clients[c];
    var k, i := FindFile(cl.files, r.resource), FirstIdleTask(s.tasks);
    IdleFound(s);
    var x := DispatchClose(g, s, c, r.resource, o);
    if FirstError(g, s, c, r) != 0 {
      CheckedComes(g, s, c, r, o, x, 0);
    } else if o.update != 0 || (o.submit != 0 && !o.restores) {
      StoppedComes(g, s, c, r, o);
    } else {
      var fd, n := cl.files[k].fd, GlobalFile(g, c, k);
      if o.submit != 0 {
        assert s.table[n := fd.value] == s.table;
        RingComes(g, s, c, r, o, x, i, 0);
      } else {
        var t := NewTask(s, c, KClose).(file := k, resourceId := r.resource, closeFd := fd);
        AdmitComes(g, s, Move(s.(table := s.table - {n}), fd.value, CloseOp(i)), c,
                   SetFile(cl, k, FileSlot(r.resource, None, 1, false, true)), i, t, fd, r, o);
      }
    }
  }

  lemma StoppedComes(g: Config, s: State, c: nat, r: Request, o: Oracle)
    requires c < |s.clients| == |s.logs| && r.Close? && FirstError(g, s, c, r) == 0
    requires o.update != 0 || (o.submit != 0 && !o.restores)
    ensures Comes(g, s, c, r, o, Stopped)
  {
  }

  /** Pinning a registered file changes neither which slots are idle nor which ids are in use. */
  lemma PinnedSame(cl: Client, k: nat)
    requires k < |cl.files| && cl.files[k].registered
    ensures |PinFile(cl, k).files| == |cl.files|
    ensures forall j | 0 <= j < |cl.files| :: IdleFile(PinFile(cl, k).files[j]) == IdleFile(cl.files[j])
    ensures Allocate(PinFile(cl, k)) == Allocate(cl)
  {
    var p := PinFile(cl, k);
    forall id ensures IdInUse(p, id) == IdInUse(cl, id) {
      if j :| 0 <= j < |cl.files| && cl.files[j].id == id && !IdleFile(cl.files[j]) {
        assert p.files[j].id == id && !IdleFile(p.files[j]);
      }
      if j :| 0 <= j < |p.files| && p.files[j].id == id && !IdleFile(p.files[j]) {
        assert cl.files[j].id == id && !IdleFile(cl.files[j]);
      }
    }
    SameAllocation(cl, p, cl.nextId, |cl.files| + |cl.buffers|);
  }

  lemma {:induction false} SameAllocation(cl: Client, cl': Client, next: nat, attempts: nat)
    requires forall id :: IdInUse(cl', id) == IdInUse(cl, id)
    ensures AllocateFrom(cl', next, attempts) == AllocateFrom(cl, next, attempts)
    decreases attempts
  {
    if attempts != 0 { SameAllocation(cl, cl', Wrap32(next + 1), attempts - 1); }
  }

  /** The fd an operation works on is that of its slot. */
  lemma Resolves(g: Config, s: State, c: nat, k: nat, kind: Kind)
    requires Clean(g, s, c) && k < |s.clients[c].files| && s.clients[c].files[k].registered
    ensures ResolveFd(g, s, c, k, kind) == s.clients[c].files[k].fd && s.clients[c].files[k].fd.Some?
  {
  }

  /** ACCEPT, with its file found and a task slot free. */
  lemma AcceptComes(g: Config, s: State, c: nat, r: Request, k: nat, i: nat, o: Oracle)
    requires Clean(g, s, c) && r.Accept? && AdmissionError(g, s, s.clients[c], r) == 0
    requires ResourceError(s.clients[c], r) == 0 && s.nextTaskId < TASK_ID_RESERVED
    requires k == FindFile(s.clients[c].files, r.resource) && i == FirstIdleTask(s.tasks) < |s.tasks|
    ensures Comes(g, s, c, r, o, DispatchFileOp(g, s, c, r, o))
  {
    hide Comes, Reject, RejectAt, Admit, AdmissionError, NoTaskSlot, FirstIdle, Allocate, ResolveFd;
    var cl := s.clients[c];
    var pinned := PinFile(cl, k);
    PinnedSame(cl, k);
    Resolves(g, s, c, k, KAccept);
    IdleFound(s);
    var k', a := FirstIdleFile(pinned.files), Allocate(cl);
    assert NoFileSlot(cl, r) <==> k' == |cl.files|;
    var x := DispatchFileOp(g, s, c, r, o);
    if FirstError(g, s, c, r) != 0 {
      RejectAtSame(g, s, s, c, i, EAGAIN, o);
      RejectAtSame(g, s, SetClient(s, c, cl.(nextId := a.next)), c, i, EOVERFLOW, o);
      CheckedComes(g, s, c, r, o, x, a.next);
    } else if o.submit != 0 {
      assert cl.files[k' := FREE_FILE] == cl.files;
      RingComes(g, s, c, r, o, x, i, a.id);
    } else {
      AdmitComes(g, s, s, c, Reserve(pinned.(nextId := a.next), k', a.id), i,
                 FileTask(s, c, r, k).(result := k', resultId := a.id), cl.files[k].fd, r, o);
    }
  }

  /** Any other file operation, likewise. */
  lemma SubmittedComes(g: Config, s: State, c: nat, r: Request, k: nat, i: nat, o: Oracle)
    requires Clean(g, s, c) && IsFileOp(r) && !r.Accept? && AdmissionError(g, s, s.clients[c], r) == 0
    requires ResourceError(s.clients[c], r) == 0 && s.nextTaskId < TASK_ID_RESERVED
    requires k == FindFile(s.clients[c].files, r.resource) && i == FirstIdleTask(s.tasks) < |s.tasks|
    ensures Comes(g, s, c, r, o, DispatchFileOp(g, s, c, r, o))
  {
    hide Comes, Reject, RejectAt, Admit, AdmissionError, NoTaskSlot, FirstIdle, Allocate, ResolveFd;
    var cl := s.clients[c];
    Resolves(g, s, c, k, KindOf(r));
    IdleFound(s);
    if o.submit != 0 {
      RingComes(g, s, c, r, o, DispatchFileOp(g, s, c, r, o), i, 0);
    } else if r.SockReadFixed? || r.SockWriteFixed? {
      var b := FindBuffer(cl.buffers, r.buffer);
      var t := FileTask(s, c, r, k).(buffer := b, bufferId := r.buffer);
      AdmitComes(g, s, s, c, PinBuffer(PinFile(cl, k), b), i, t, cl.files[k].fd, r, o);
    } else {
      PinnedComes(g, s, c, r, k, i, o);
    }
  }

  lemma PinnedComes(g: Config, s: State, c: nat, r: Request, k: nat, i: nat, o: Oracle)
    requires Clean(g, s, c) && IsFileOp(r) && !r.Accept? && !r.SockReadFixed? && !r.SockWriteFixed?
    requires FirstError(g, s, c, r) == 0 && o.submit == 0 && FirstIdle(s.tasks, i)
    requires k == FindFile(s.clients[c].files, r.resource) < |s.clients[c].files|
    ensures Comes(g, s, c, r, o, Admit(s, c, PinFile(s.clients[c], k), i, FileTask(s, c, r, k), s.clients[c].files[k].fd, o))
  {
    hide Comes, Admit, FirstError, FirstIdle, Allocate;
    AdmitComes(g, s, s, c, PinFile(s.clients[c], k), i, FileTask(s, c, r, k), s.clients[c].files[k].fd, r, o);
  }

  lemma FileOpComes(g: Config, s: State, c: nat, r: Request, o: Oracle)
    requires Clean(g, s, c) && IsFileOp(r) && AdmissionError(g, s, s.clients[c], r) == 0
    ensures Comes(g, s, c, r, o, DispatchFileOp(g, s, c, r, o))
  {
    hide Comes, Reject, AdmissionError, NoTaskSlot, FirstIdle, Allocate, PinFile, BufferError;
    var cl := s.clients[c];
    var k, i := FindFile(cl.files, r.resource), FirstIdleTask(s.tasks);
    IdleFound(s);
    if ResourceError(cl, r) != 0 || s.nextTaskId >= TASK_ID_RESERVED || i == |s.tasks| {
      FileOpRefused(g, s, c, r, o);
      CheckedComes(g, s, c, r, o, DispatchFileOp(g, s, c, r, o), 0);
    } else if r.Accept? {
      AcceptComes(g, s, c, r, k, i, o);
    } else {
      SubmittedComes(g, s, c, r, k, i, o);
    }
  }

  lemma FileOpRefused(g: Config, s: State, c: nat, r: Request, o: Oracle)
    requires c < |s.clients| == |s.logs| && IsFileOp(r) && AdmissionError(g, s, s.clients[c], r) == 0
    requires ResourceError(s.clients[c], r) != 0 || s.nextTaskId >= TASK_ID_RESERVED || NoTaskSlot(s)
    ensures FirstError(g, s, c, r) != 0
    ensures DispatchFileOp(g, s, c, r, o) == Reject(s, c, FirstError(g, s, c, r), o)
  {
    hide Reject, AdmissionError, Allocate, PinFile, BufferError, Admit, RejectAt, ResolveFd, FileTask;
    IdleFound(s);
  }

  lemma SubmissionComes(g: Config, s: State, c: nat, r: Request, o: Oracle)
    requires Clean(g, s, c) && s.clients[c].request == Some(r) && !IsControl(r)
    ensures Comes(g, s, c, r, o, DispatchRequest(g, s, c, o))
  {
    hide Refused, Accepted, Reject, AdmissionError, DispatchOpenat, DispatchClose, DispatchFileOp, DispatchPlain;
    var e := AdmissionError(g, s, s.clients[c], r);
    if e != 0 {
      RejectRefuses(s, c, 0, e, o);
      AdmissionFirst(g, s, c, r);
      hide FirstError;
    } else {
      hide Comes;
      if r.Openat? {
        OpenatComes(g, s, c, r, o);
      } else if r.Close? {
        CloseComes(g, s, c, r, o);
      } else if IsFileOp(r) {
        FileOpComes(g, s, c, r, o);
      } else {
        PlainComes(g, s, c, r, o);
      }
    }
  }

  lemma AdmissionFirst(g: Config, s: State, c: nat, r: Request)
    requires c < |s.clients| && !IsControl(r) && AdmissionError(g, s, s.clients[c], r) != 0
    ensures FirstError(g, s, c, r) == AdmissionError(g, s, s.clients[c], r)
  {
  }

  // ---- the checks, in terms of what they are about ---------------------------------------------------

  /** The ring can do what the request asks for. */
  predicate Supported(g: Config, r: Request) {
    && (r.SockRead? || r.FileRead? ==> OpReadv in g.supported)
    && (r.SockWrite? || r.FileWrite? ==> OpWritev in g.supported)
    && (r.Cancel? ==> OpAsyncCancel in g.supported)
    && (r.SockReadFixed? ==> OpReadFixed in g.supported)
    && (r.SockWriteFixed? ==> OpWriteFixed in g.supported)
    && (r.Poll? ==> OpPoll in g.supported)
    && (r.Connect? ==> OpConnect in g.supported)
    && (r.Accept? ==> OpAccept in g.supported)
    && (r.Openat? ==> OpOpenat in g.supported)
    && (r.Close? ==> OpClose in g.supported)
  }

  /** Ids are named where they are needed, lengths are within the limits and not zero where
      something is to be moved, and an address length fits 16 bits. */
  predicate LegalFields(g: Config, r: Request)
    requires !IsControl(r)
  {
    && (NamesFile(KindOf(r)) ==> r.resource != 0)
    && (NamesBuffer(KindOf(r)) ==> r.buffer != 0)
    && LengthOf(r) <= g.ioMax
    && (LengthOf(r) == 0 ==>
          r.Nop? || r.Timeout? || r.Cancel? || r.Poll? || r.Accept? || r.Close?)
    && (r.Connect? || r.Accept? ==> LengthOf(r) < U16)
    && (r.Openat? ==> |r.data| >= 2 && r.data[|r.data| - 1] == 0)
    && (r.Poll? ==> r.mask != 0)
    && (r.Cancel? ==> 0 < r.target < TASK_ID_RESERVED)
  }

  /** A resource that the request names is not registered. */
  predicate Missing(cl: Client, r: Request)
    requires !IsControl(r)
  {
    || (NamesFile(KindOf(r)) && forall k | 0 <= k < |cl.files| :: !IsFile(cl, k, r.resource))
    || (NamesBuffer(KindOf(r)) && forall b | 0 <= b < |cl.buffers| :: !IsBuffer(cl, b, r.buffer))
  }

  /** A CLOSE of a file that tasks still use. */
  predicate InUse(cl: Client, r: Request) {
    r.Close? && exists k | 0 <= k < |cl.files| :: IsFile(cl, k, r.resource) && cl.files[k].inFlight != 0
  }

  /** A fixed write of more than what its buffer holds. */
  predicate BeyondValid(cl: Client, r: Request) {
    r.SockWriteFixed? &&
    exists b | 0 <= b < |cl.buffers| :: IsBuffer(cl, b, r.buffer) && r.length > cl.buffers[b].validLength
  }

  /** The credit is used up: of the daemon, or of the client. CANCEL needs none. */
  predicate NoCredit(g: Config, s: State, c: nat, r: Request) {
    !r.Cancel? && (Count(EveryCredit, s.tasks) == g.taskCapacity || Count(CreditOf(c), s.tasks) == g.creditLimit)
  }

  /** The errno a submission meets before the ring, 0 if none. */
  function Verdict(g: Config, s: State, c: nat, r: Request): nat
    requires c < |s.clients| && !IsControl(r)
  {
    var cl := s.clients[c];
    if NoCredit(g, s, c, r) then EAGAIN
    else if !Supported(g, r) then ENOTSUP
    else if !LegalFields(g, r) then EINVAL
    else if Missing(cl, r) then ENOENT
    else if InUse(cl, r) then EBUSY
    else if BeyondValid(cl, r) then EINVAL
    else if s.nextTaskId >= TASK_ID_RESERVED then EOVERFLOW
    else if r.Openat? && NoFileSlot(cl, r) then EAGAIN
    else if r.Openat? && NoId(cl, r) then EOVERFLOW
    else if Count(Every, s.tasks) == g.taskCapacity then EAGAIN
    else if NoFileSlot(cl, r) then EAGAIN
    else if NoId(cl, r) then EOVERFLOW
    else 0
  }

  lemma FieldsLegal(g: Config, r: Request)
    requires !IsControl(r)
    ensures ArgumentsOk(g, r) <==> LegalFields(g, r)
  {
  }

  lemma CapabilityKnown(g: Config, r: Request)
    requires !IsControl(r)
    ensures Supported(g, r) <==>
      (CapabilityOf(KindOf(r)).None? || CapabilityOf(KindOf(r)).value in g.supported)
  {
  }

  /** The credit checks in terms of the tasks they count. */
  lemma AdmissionByCount(g: Config, s: State, c: nat, r: Request)
    requires Reachable(g, s) && c < |s.clients| && !IsControl(r)
    ensures AdmissionError(g, s, s.clients[c], r) ==
              if NoCredit(g, s, c, r) then EAGAIN
              else if !Supported(g, r) then ENOTSUP
              else if !LegalFields(g, r) then EINVAL
              else 0
  {
    hide Reachable, ArgumentsOk, LegalFields, Supported, CapabilityOf;
    Accounting(g, s);
    FieldsLegal(g, r);
    CapabilityKnown(g, r);
  }

  /** The resource checks in terms of what is registered, on an open connection. */
  lemma ResourcesByName(g: Config, cl: Client, r: Request)
    requires ClientOk(g, cl) && cl.open && !IsControl(r)
    requires NamesFile(KindOf(r)) ==> r.resource != 0
    requires NamesBuffer(KindOf(r)) ==> r.buffer != 0
    ensures ResourceError(cl, r) ==
              if Missing(cl, r) then ENOENT else if InUse(cl, r) then EBUSY else if BeyondValid(cl, r) then EINVAL else 0
  {
    if NamesFile(KindOf(r)) {
      SearchesFind(g, cl, r.resource);
      var k := FindFile(cl.files, r.resource);
      if k < |cl.files| { assert IsFile(cl, k, r.resource) && FileOk(cl.open, cl.files[k]); }
      if NamesBuffer(KindOf(r)) {
        SearchesFind(g, cl, r.buffer);
        var b := FindBuffer(cl.buffers, r.buffer);
        if b < |cl.buffers| { assert IsBuffer(cl, b, r.buffer) && BufferOk(g, cl.open, cl.buffers[b]); }
      }
    }
    hide ClientOk;
  }

  lemma TaskSlotsByCount(g: Config, s: State)
    requires Reachable(g, s)
    ensures NoTaskSlot(s) <==> Count(Every, s.tasks) == g.taskCapacity
  {
    hide Reachable, ClientsOk, OpsOk, TableOk, LedgerOk, SessionsOk, TasksOk, Counted;
    ReachableInv(g, s);
    AllHit(s.tasks);
  }

  lemma {:induction false} AllHit(tasks: seq<Task>)
    ensures Count(Every, tasks) == |tasks| <==> forall i | 0 <= i < |tasks| :: tasks[i].active
  {
    CountBound(Every, tasks);
    if tasks != [] {
      var n := |tasks| - 1;
      AllHit(tasks[..n]);
      CountBound(Every, tasks[..n]);
      assert forall j | 0 <= j < n :: tasks[j] == tasks[..n][j];
    }
  }

  lemma VerdictIsFirstError(g: Config, s: State, c: nat, r: Request)
    requires Reachable(g, s) && c < |s.clients| && s.clients[c].request == Some(r) && !IsControl(r)
    ensures FirstError(g, s, c, r) == Verdict(g, s, c, r)
  {
    hide Reachable, AdmissionError, ResourceError, NoCredit, Supported, Missing, InUse, BeyondValid, NoFileSlot, NoId, NoTaskSlot;
    ClientFacts(g, s, c);
    AdmissionByCount(g, s, c, r);
    TaskSlotsByCount(g, s);
    if AdmissionError(g, s, s.clients[c], r) == 0 {
      LegalIds(g, r);
      hide LegalFields;
      ResourcesByName(g, s.clients[c], r);
    }
    hide ClientOk;
  }

  lemma LegalIds(g: Config, r: Request)
    requires !IsControl(r) && LegalFields(g, r)
    ensures NamesFile(KindOf(r)) ==> r.resource != 0
    ensures NamesBuffer(KindOf(r)) ==> r.buffer != 0
  {
  }

  // ---- the theorems -------------------------------------------------------------------------------------

  /** Client `c` has submission `r` waiting in a reachable state. */
  ghost predicate Submits(g: Config, s: State, c: nat, r: Request) {
    Reachable(g, s) && c < |s.clients| == |s.logs| && s.clients[c].request == Some(r) && !IsControl(r)
  }

  /** Every submission. The loop goes on exactly if the answer fits and the table does what a
      CLOSE asks of it. Then the submission is refused with the errno of the first check that
      it fails, or the ring's, and but for the answer, the count of refusals and the counter
      of ids all is as before; or it is accepted, with everything that goes with it. */
  lemma SubmissionAnswered(g: Config, s: State, c: nat, r: Request, o: Oracle)
    requires Submits(g, s, c, r)
    ensures
      var x, v := DispatchRequest(g, s, c, o), Verdict(g, s, c, r);
      var e := if v != 0 then v else o.submit;
      && (x.Running? <==> o.fits && (r.Close? && v == 0 ==> o.update == 0 && (o.submit == 0 || o.restores)))
      && (x.Running? && e != 0 ==> Refused(s, x.state, c, e))
      && (x.Running? && e == 0 ==> Accepted(g, s, x.state, c, r))
  {
    hide Reachable, DispatchRequest, Verdict, FirstError, Refused, Accepted, Inv, Clean;
    ReachableInv(g, s);
    InvClean(g, s, c);
    SubmissionComes(g, s, c, r, o);
    VerdictIsFirstError(g, s, c, r);
  }

  /** What was queued on the connection by the dispatch. */
  ghost predicate Queued(g: Config, s: State, c: nat, o: Oracle, record: Record)
    requires c < |s.clients| == |s.logs| && s.clients[c].request.Some?
  {
    var x := DispatchRequest(g, s, c, o);
    x.Running? && c < |x.state.logs| && x.state.logs[c] == s.logs[c] + [record]
  }

  /** The answer with errno `e` is queued exactly if `e` is the verdict, or the ring's. */
  lemma QueuedIff(g: Config, s: State, c: nat, r: Request, o: Oracle, e: nat)
    requires Submits(g, s, c, r) && DispatchRequest(g, s, c, o).Running? && e != 0
    ensures
      var v := Verdict(g, s, c, r);
      Queued(g, s, c, o, SubmitResult(0, -(e as int))) <==> e == if v != 0 then v else o.submit
  {
    hide Reachable, DispatchRequest, Verdict, Accepted;
    SubmissionAnswered(g, s, c, r, o);
    var v, x := Verdict(g, s, c, r), DispatchRequest(g, s, c, o);
    var mine := if v != 0 then v else o.submit;
    if mine == 0 {
      AcceptedLog(g, s, x.state, c, r);
      assert x.state.logs[c][|s.logs[c]|] == SubmitResult(s.nextTaskId, 0);
    } else {
      assert x.state.logs[c][|s.logs[c]|] == SubmitResult(0, -(mine as int));
    }
  }

  lemma AcceptedLog(g: Config, s: State, s': State, c: nat, r: Request)
    requires c < |s.clients| == |s.logs| && !IsControl(r) && Accepted(g, s, s', c, r)
    ensures s'.logs == s.logs[c := s.logs[c] + [SubmitResult(s.nextTaskId, 0)]]
  {
    hide Describes, SlotsTaken;
  }

  /** A submission is accepted, under the next task id, exactly when it meets no objection on
      its way to the ring and the ring takes it. */
  lemma AcceptedIff(g: Config, s: State, c: nat, r: Request, o: Oracle)
    requires Submits(g, s, c, r) && DispatchRequest(g, s, c, o).Running?
    ensures Queued(g, s, c, o, SubmitResult(s.nextTaskId, 0)) <==> Verdict(g, s, c, r) == 0 && o.submit == 0
  {
    hide Reachable, DispatchRequest, Verdict, Accepted;
    SubmissionAnswered(g, s, c, r, o);
    var v, x := Verdict(g, s, c, r), DispatchRequest(g, s, c, o);
    var mine := if v != 0 then v else o.submit;
    if mine == 0 {
      AcceptedLog(g, s, x.state, c, r);
    } else {
      assert x.state.logs[c][|s.logs[c]|] == SubmitResult(0, -(mine as int));
    }
  }

  /** Nothing is wrong with the request itself. */
  predicate Proper(g: Config, s: State, c: nat, r: Request)
    requires c < |s.clients| && !IsControl(r)
  {
    && Supported(g, r) && LegalFields(g, r)
    && !Missing(s.clients[c], r) && !InUse(s.clients[c], r) && !BeyondValid(s.clients[c], r)
    && s.nextTaskId < TASK_ID_RESERVED
  }

  /** EAGAIN, exactly: the credit is used up; or, of a request with nothing else wrong, every
      task slot is taken (there is none kept for CANCEL), or the file it would make has no
      slot; or the ring says so. An OPENAT that gets no id fails with EOVERFLOW before task
      slots are looked at. */
  lemma RefusedForWant(g: Config, s: State, c: nat, r: Request, o: Oracle)
    requires Submits(g, s, c, r) && DispatchRequest(g, s, c, o).Running?
    ensures
      Queued(g, s, c, o, SubmitResult(0, -EAGAIN)) <==>
        || NoCredit(g, s, c, r)
        || (Proper(g, s, c, r) &&
            (NoFileSlot(s.clients[c], r) ||
             (Count(Every, s.tasks) == g.taskCapacity && (r.Openat? ==> !NoId(s.clients[c], r)))))
        || (Verdict(g, s, c, r) == 0 && o.submit == EAGAIN)
  {
    hide Reachable, DispatchRequest, Queued, Count;
    hide NoCredit, Supported, LegalFields, Missing, InUse, BeyondValid, NoFileSlot, NoId;
    QueuedIff(g, s, c, r, o, EAGAIN);
  }

  /** A CANCEL that the ring supports and that names an id a task can have is refused with
      EAGAIN exactly when all task slots are taken, by the task it is to cancel among others. */
  lemma CancelRefusedIff(g: Config, s: State, c: nat, target: nat, o: Oracle)
    requires Submits(g, s, c, Cancel(target)) && DispatchRequest(g, s, c, o).Running?
    requires OpAsyncCancel in g.supported && 0 < target < TASK_ID_RESERVED
    requires s.nextTaskId < TASK_ID_RESERVED && o.submit != EAGAIN
    ensures Queued(g, s, c, o, SubmitResult(0, -EAGAIN)) <==> Count(Every, s.tasks) == g.taskCapacity
  {
    hide Reachable, DispatchRequest, Queued, Count, Verdict;
    RefusedForWant(g, s, c, Cancel(target), o);
  }

  /** EINVAL, exactly: with credit left and the operation supported, a field is wrong; or the
      resources are there and a fixed write goes beyond the valid length; or the ring says so. */
  lemma RefusedAsInvalid(g: Config, s: State, c: nat, r: Request, o: Oracle)
    requires Submits(g, s, c, r) && DispatchRequest(g, s, c, o).Running?
    ensures
      Queued(g, s, c, o, SubmitResult(0, -EINVAL)) <==>
        || (!NoCredit(g, s, c, r) && Supported(g, r) &&
            (!LegalFields(g, r) || (!Missing(s.clients[c], r) && BeyondValid(s.clients[c], r))))
        || (Verdict(g, s, c, r) == 0 && o.submit == EINVAL)
  {
    hide Reachable, DispatchRequest, Queued, Count;
    hide NoCredit, Supported, LegalFields, Missing, NoFileSlot, NoId;
    QueuedIff(g, s, c, r, o, EINVAL);
  }

  /** ENOENT and EBUSY, exactly: nothing earlier is wrong, and a resource that the request
      names is not there, or is a file to be closed that tasks still use. */
  lemma RefusedForResources(g: Config, s: State, c: nat, r: Request, o: Oracle)
    requires Submits(g, s, c, r) && DispatchRequest(g, s, c, o).Running?
    ensures
      var fine := !NoCredit(g, s, c, r) && Supported(g, r) && LegalFields(g, r);
      && (Queued(g, s, c, o, SubmitResult(0, -ENOENT)) <==>
            (fine && Missing(s.clients[c], r)) || (Verdict(g, s, c, r) == 0 && o.submit == ENOENT))
      && (Queued(g, s, c, o, SubmitResult(0, -EBUSY)) <==>
            (fine && !Missing(s.clients[c], r) && InUse(s.clients[c], r)) || (Verdict(g, s, c, r) == 0 && o.submit == EBUSY))
  {
    hide Reachable, DispatchRequest, Queued, Count;
    hide NoCredit, Supported, LegalFields, Missing, InUse, BeyondValid, NoFileSlot, NoId;
    QueuedIff(g, s, c, r, o, ENOENT);
    QueuedIff(g, s, c, r, o, EBUSY);
  }

  /** Of the submissions that arrive from the library, EINVAL goes to exactly those that would
      read more than io_bytes_max, cancel an id no task can have, or write more than their
      buffer holds, apart from what the ring itself refuses. */
  lemma LibraryRefusedAsInvalid(g: Config, s: State, c: nat, r: Request, o: Oracle)
    requires Submits(g, s, c, r) && DispatchRequest(g, s, c, o).Running?
    requires Encoder.LibraryAccepts(r) && Encoder.WithinLimits(g.ioMax, r)
    ensures
      Queued(g, s, c, o, SubmitResult(0, -EINVAL)) <==>
        || (!NoCredit(g, s, c, r) && Supported(g, r) &&
            (LengthOf(r) > g.ioMax || (r.Cancel? && !(0 < r.target < TASK_ID_RESERVED)) ||
             (!Missing(s.clients[c], r) && BeyondValid(s.clients[c], r))))
        || (Verdict(g, s, c, r) == 0 && o.submit == EINVAL)
  {
    hide Reachable, DispatchRequest, ArgumentsOk, NoCredit, Supported, Missing, BeyondValid, Queued, Verdict, LegalFields,
      Encoder.LibraryAccepts, Encoder.WithinLimits;
    RefusedAsInvalid(g, s, c, r, o);
    Encoder.FieldsWrongIff(g, r);
    FieldsLegal(g, r);
  }
}
