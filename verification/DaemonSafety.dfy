/** Every step of the daemon keeps the invariant. */
module DaemonSafety {
  import opened Protocol
  import opened DaemonState
  import opened DaemonSteps
  import opened DaemonInvariant
  import opened DaemonFrame

  // ---- putting the frames together -----------------------------------------------

  /** A change to client `c` and task slot `i` keeps the invariant if it does so locally. */
  lemma InvFrame(g: Config, s: State, s': State, c: nat, i: nat)
    requires Inv(g, s) && Touches(g, s, s', c, i)
    requires ClientOk(g, s'.clients[c])
    requires CountersFollow(s.clients[c], s'.clients[c], c, At(s.tasks, i), At(s'.tasks, i))
    requires TotalsFollow(s, s', At(s.tasks, i), At(s'.tasks, i))
    requires KeepsOthers(s.clients[c], s'.clients[c], c, At(s.tasks, i))
    requires OpsFollow(s, s', At(s.tasks, i), At(s'.tasks, i), i)
    requires s.nextTaskId <= s'.nextTaskId <= TASK_ID_RESERVED
    requires if At(s'.tasks, i).active
             then 0 < At(s'.tasks, i).id < s'.nextTaskId && TaskOk(g, s'.clients[c], At(s'.tasks, i))
             else At(s'.tasks, i) == IDLE_TASK
    requires TableOk(g, s') && LedgerOk(s')
    requires s'.logs == s.logs[c := s'.logs[c]]
    requires s'.clients[c].open ==> SessionOk(s', c)
    ensures Inv(g, s')
  {
    hide ClientOk, OpsOk, TasksOk, Counted, LedgerOk, TableOk, SessionsOk, SessionOk, TaskOk;
    hide CountersFollow, TotalsFollow, KeepsOthers, OpsFollow;
    CountedFrame(g, s, s', c, i);
    TasksFrame(g, s, s', c, i);
    OpsFrame(g, s, s', c, i);
    SessionsFrame(g, s, s', c, i);
  }

  /** Nothing but client `c`, the files and the log changes. */
  ghost predicate OnlyClient(g: Config, s: State, s': State, c: nat) {
    && Touches(g, s, s', c, |s.tasks|)
    && s'.ops == s.ops && s'.nextTaskId == s.nextTaskId
    && s'.outstanding == s.outstanding && s'.outstandingCredit == s.outstandingCredit
    && s'.accepted == s.accepted && s'.completions == s.completions
    && s'.logs == s.logs[c := s'.logs[c]]
  }

  /** Pins, counts and every slot in use stay. */
  ghost predicate KeepsUse(cl: Client, cl': Client)
    requires |cl'.files| == |cl.files| && |cl'.buffers| == |cl.buffers|
  {
    && cl'.generation == cl.generation
    && cl'.outstanding == cl.outstanding && cl'.outstandingCredit == cl.outstandingCredit
    && (forall k | 0 <= k < |cl.files| ::
          cl'.files[k].inFlight == cl.files[k].inFlight
          && (cl.files[k].inFlight == 0 || SameFile(cl.files[k], cl'.files[k])))
    && (forall b | 0 <= b < |cl.buffers| ::
          cl'.buffers[b].inFlight == cl.buffers[b].inFlight
          && (cl.buffers[b].inFlight == 0 || SameBuffer(cl.buffers[b], cl'.buffers[b])))
  }

  lemma ClientFrame(g: Config, s: State, s': State, c: nat)
    requires Inv(g, s) && OnlyClient(g, s, s', c)
    requires ClientOk(g, s'.clients[c]) && KeepsUse(s.clients[c], s'.clients[c])
    requires TableOk(g, s') && LedgerOk(s')
    requires s'.clients[c].open ==> SessionOk(s', c)
    ensures Inv(g, s')
  {
    InvFrame(g, s, s', c, |s.tasks|);
  }

  // ---- resource ids ----------------------------------------------------------------

  /** An allocated id is not 0 and not in use; the counter stays in range. */
  lemma {:induction false} AllocateFromSound(cl: Client, next: nat, attempts: nat)
    requires next < U32
    ensures var a := AllocateFrom(cl, next, attempts);
            a.next < U32 && a.id < U32 && (a.id != 0 ==> !IdInUse(cl, a.id))
    decreases attempts
  {
    if attempts != 0 && (next == 0 || IdInUse(cl, next)) {
      AllocateFromSound(cl, Wrap32(next + 1), attempts - 1);
    }
  }

  lemma AllocateSound(g: Config, s: State, c: nat)
    requires Inv(g, s) && c < |s.clients|
    ensures var a := Allocate(s.clients[c]);
            a.next < U32 && a.id < U32 && (a.id != 0 ==> !IdInUse(s.clients[c], a.id))
  {
    var cl := s.clients[c];
    AllocateFromSound(cl, cl.nextId, |cl.files| + |cl.buffers|);
  }

  /** No slot of a sound client carries an id that is not in use. */
  lemma UnusedId(g: Config, cl: Client, id: nat)
    requires ClientOk(g, cl) && id != 0 && !IdInUse(cl, id)
    ensures forall n | 0 <= n < |cl.files| + |cl.buffers| :: IdAt(cl, n) != id
  {
    forall n | 0 <= n < |cl.files| + |cl.buffers|
      ensures IdAt(cl, n) != id
    {
      if n < |cl.files| {
        assert FileOk(cl.open, cl.files[n]);
      } else {
        assert BufferOk(g, cl.open, cl.buffers[n - |cl.files|]);
      }
    }
  }

  /** Changing one slot's id to 0 or to an id no slot carries keeps ids distinct. */
  lemma IdsUpdate(cl: Client, cl': Client, n: nat)
    requires IdsDistinct(cl)
    requires |cl'.files| == |cl.files| && |cl'.buffers| == |cl.buffers| && n < |cl.files| + |cl.buffers|
    requires forall m | 0 <= m < |cl.files| + |cl.buffers| && m != n :: IdAt(cl', m) == IdAt(cl, m)
    requires IdAt(cl', n) == 0 || IdAt(cl', n) == IdAt(cl, n)
          || forall m | 0 <= m < |cl.files| + |cl.buffers| :: IdAt(cl, m) != IdAt(cl', n)
    ensures IdsDistinct(cl')
  {
  }

  lemma SetFileOk(g: Config, cl: Client, k: nat, f: FileSlot)
    requires ClientOk(g, cl) && k < |cl.files| && FileOk(cl.open, f)
    requires f.id == 0 || f.id == cl.files[k].id || !IdInUse(cl, f.id)
    ensures ClientOk(g, SetFile(cl, k, f))
  {
    var cl' := SetFile(cl, k, f);
    if f.id != 0 && f.id != cl.files[k].id { UnusedId(g, cl, f.id); }
    assert IdAt(cl', k) == f.id;
    IdsUpdate(cl, cl', k);
  }

  lemma SetBufferOk(g: Config, cl: Client, b: nat, x: BufferSlot)
    requires ClientOk(g, cl) && b < |cl.buffers| && BufferOk(g, cl.open, x)
    requires x.id == 0 || x.id == cl.buffers[b].id || !IdInUse(cl, x.id)
    ensures ClientOk(g, SetBuffer(cl, b, x))
  {
    var cl' := SetBuffer(cl, b, x);
    if x.id != 0 && x.id != cl.buffers[b].id { UnusedId(g, cl, x.id); }
    assert IdAt(cl', |cl.files| + b) == x.id;
    IdsUpdate(cl, cl', |cl.files| + b);
  }

  /** Only the id counter and the pending request differ. */
  ghost predicate SameSlots(cl: Client, cl': Client) {
    cl' == cl.(request := cl'.request, nextId := cl'.nextId)
  }

  lemma SameSlotsOk(g: Config, cl: Client, cl': Client)
    requires ClientOk(g, cl) && SameSlots(cl, cl') && cl'.nextId < U32 && cl'.request.None?
    ensures ClientOk(g, cl')
  {
    assert forall n | 0 <= n < |cl.files| + |cl.buffers| :: IdAt(cl', n) == IdAt(cl, n);
  }

  // ---- replies that change no slot ---------------------------------------------------

  /** A refusal, or any reply that starts nothing. */
  lemma PlainReply(g: Config, s: State, s': State, c: nat, r: Record)
    requires Inv(g, s) && OnlyClient(g, s, s', c) && Serving(s.clients[c])
    requires SameSlots(s.clients[c], s'.clients[c]) && s'.clients[c].nextId < U32 && s'.clients[c].request.None?
    requires s'.logs[c] == s.logs[c] + [r]
    requires !r.Completion? && !r.Payload? && !r.HandshakeResult? && (r.SubmitResult? ==> r.id == 0 && r.res < 0)
    requires s'.table == s.table && s'.ledger == s.ledger && s'.issued == s.issued && s'.closed == s.closed
    ensures Inv(g, s')
  {
    hide OpsOk, TasksOk, Counted, LedgerOk, TableOk;
    SameSlotsOk(g, s.clients[c], s'.clients[c]);
    assert SessionOk(s, c);
    SessionPlain(g, s, s', c, r);
    LedgerSame(s, s');
    TableSame(g, s, s', c);
    ClientFrame(g, s, s', c);
  }

  lemma TableSame(g: Config, s: State, s': State, c: nat)
    requires Touches(g, s, s', c, |s.tasks|) && TableOk(g, s) && s'.table == s.table
    requires s'.clients[c].files == s.clients[c].files
    ensures TableOk(g, s')
  {
  }

  lemma ReplyKeeps(g: Config, s: State, c: nat, id: nat, status: int, o: Oracle)
    requires Inv(g, s) && c < |s.clients| && Serving(s.clients[c])
    ensures var r := ReplyResource(s, c, id, status, o); r.Running? ==> Inv(g, r.state)
  {
    var r := ReplyResource(s, c, id, status, o);
    if r.Running? {
      PlainReply(g, s, r.state, c, ResourceResult(id, status));
    }
  }

  lemma QueueReplyKeeps(g: Config, s: State, c: nat, record: Record, fits: bool)
    requires Inv(g, s) && c < |s.clients| && Serving(s.clients[c])
    requires record.StatsResult? || record.TraceResult?
    ensures var r := QueueReply(s, c, record, fits); r.Running? ==> Inv(g, r.state)
  {
    var r := QueueReply(s, c, record, fits);
    if r.Running? {
      PlainReply(g, s, r.state, c, record);
    }
  }

  lemma ReplyHandshakeKeeps(g: Config, s: State, c: nat, accepted: bool, fits: bool)
    requires Inv(g, s) && c < |s.clients| && s.clients[c].open && !s.clients[c].submit
    ensures var r := ReplyHandshake(s, c, accepted, fits); r.Running? ==> Inv(g, r.state)
  {
    hide OpsOk, TasksOk, Counted, LedgerOk, TableOk;
    var r := ReplyHandshake(s, c, accepted, fits);
    if r.Running? {
      var s', cl := r.state, s.clients[c];
      assert forall n | 0 <= n < |cl.files| + |cl.buffers| :: IdAt(s'.clients[c], n) == IdAt(cl, n);
      assert SessionOk(s, c);
      ReplayAppend(s.logs[c], HandshakeResult(accepted));
      LedgerSame(s, s');
      TableSame(g, s, s', c);
      ClientFrame(g, s, s', c);
    }
  }

  lemma RejectKeeps(g: Config, s: State, c: nat, error: nat, o: Oracle)
    requires Inv(g, s) && c < |s.clients| && Serving(s.clients[c]) && error != 0
    ensures var r := Reject(s, c, error, o); r.Running? ==> Inv(g, r.state)
  {
    var r := Reject(s, c, error, o);
    if r.Running? {
      PlainReply(g, s, r.state, c, SubmitResult(0, -(error as int)));
    }
  }

  /** A task slot that is not active is already as clearing it leaves it. */
  lemma RejectAtKeeps(g: Config, s: State, c: nat, i: nat, error: nat, o: Oracle)
    requires Inv(g, s) && c < |s.clients| && Serving(s.clients[c]) && error != 0
    requires i < |s.tasks| && !s.tasks[i].active
    ensures var r := RejectAt(s, c, i, error, o); r.Running? ==> Inv(g, r.state)
  {
    assert s.tasks[i := IDLE_TASK] == s.tasks;
    RejectKeeps(g, s, c, error, o);
  }

  /** The id counter moves: ids that were tried and refused are not tried again. */
  lemma CounterKeeps(g: Config, s: State, c: nat, next: nat)
    requires Inv(g, s) && c < |s.clients| && next < U32
    ensures Inv(g, SetClient(s, c, s.clients[c].(nextId := next)))
  {
    hide OpsOk, TasksOk, Counted, LedgerOk, TableOk;
    var cl := s.clients[c];
    var cl' := cl.(nextId := next);
    var s' := SetClient(s, c, cl');
    assert forall n | 0 <= n < |cl.files| + |cl.buffers| :: IdAt(cl', n) == IdAt(cl, n);
    TableSame(g, s, s', c);
    LedgerSame(s, s');
    if cl.open { assert SessionOk(s, c); }
    ClientFrame(g, s, s', c);
  }

  // ---- fds that wait in a client -------------------------------------------------------

  /** The client's pending fd is closed. */
  lemma DropReceivedKeeps(g: Config, s: State, c: nat)
    requires Inv(g, s) && c < |s.clients| && s.clients[c].received.Some?
    ensures Inv(g, CloseFd(SetClient(s, c, s.clients[c].(received := None)), s.clients[c].received.value))
  {
    hide OpsOk, TasksOk, Counted, LedgerOk, TableOk;
    var cl := s.clients[c];
    var fd := cl.received.value;
    var s' := CloseFd(SetClient(s, c, cl.(received := None)), fd);
    assert forall n | 0 <= n < |cl.files| + |cl.buffers| :: IdAt(s'.clients[c], n) == IdAt(cl, n);
    Located(s, Received(c), fd);
    LedgerMove(s, s', fd, Closed);
    TableSame(g, s, s', c);
    if cl.open { assert SessionOk(s, c); }
    ClientFrame(g, s, s', c);
  }

  /** A new token arrives in a client that has none pending. */
  lemma ArriveKeeps(g: Config, s: State, c: nat)
    requires Inv(g, s) && c < |s.clients| && s.clients[c].open && s.clients[c].received.None?
    ensures Inv(g, ReceiveFd(s, c))
  {
    hide OpsOk, TasksOk, Counted, LedgerOk, TableOk;
    var cl := s.clients[c];
    var s' := ReceiveFd(s, c);
    assert forall n | 0 <= n < |cl.files| + |cl.buffers| :: IdAt(s'.clients[c], n) == IdAt(cl, n);
    FreshToken(s);
    LedgerMove(s, s', s.issued, Received(c));
    TableSame(g, s, s', c);
    assert SessionOk(s, c);
    ClientFrame(g, s, s', c);
  }

  /** A new token is closed at once. */
  lemma DiscardKeeps(g: Config, s: State)
    requires Inv(g, s)
    ensures Inv(g, CloseFd(s.(issued := s.issued + 1), s.issued))
  {
    hide OpsOk, TasksOk, Counted, LedgerOk, TableOk;
    var s' := CloseFd(s.(issued := s.issued + 1), s.issued);
    FreshToken(s);
    LedgerMove(s, s', s.issued, Closed);
    TableSame(g, s, s', 0);
    if s.clients[0].open { assert SessionOk(s, 0); }
    ClientFrame(g, s, s', 0);
  }

  // ---- registration and release ----------------------------------------------------------

  /** The pending fd goes into a free slot under a new id. */
  lemma RegisterFileKeeps(g: Config, s: State, c: nat, k: nat, a: Allocation)
    requires Inv(g, s) && c < |s.clients| && s.clients[c].open && s.clients[c].received.Some?
    requires k < |s.clients[c].files| && IdleFile(s.clients[c].files[k])
    requires a.next < U32 && a.id != 0 && !IdInUse(s.clients[c], a.id)
    ensures
      var cl := s.clients[c];
      var fd := cl.received.value;
      var cl' := SetFile(cl.(received := None, nextId := a.next), k, FileSlot(a.id, Some(fd), 0, true, false));
      Inv(g, Move(SetClient(s, c, cl'), fd, InSlot(c, k)).(table := s.table[GlobalFile(g, c, k) := fd]))
  {
    hide OpsOk, TasksOk, Counted, LedgerOk;
    var cl := s.clients[c];
    var fd := cl.received.value;
    var f := FileSlot(a.id, Some(fd), 0, true, false);
    var cl' := SetFile(cl.(received := None, nextId := a.next), k, f);
    var s' := Move(SetClient(s, c, cl'), fd, InSlot(c, k)).(table := s.table[GlobalFile(g, c, k) := fd]);
    SetFileOk(g, cl, k, f);
    assert forall n | 0 <= n < |cl.files| + |cl.buffers| :: IdAt(cl', n) == IdAt(SetFile(cl, k, f), n);
    assert FileOk(cl.open, cl.files[k]);
    Located(s, Received(c), fd);
    LedgerMove(s, s', fd, InSlot(c, k));
    TableFrame(g, s, s', c, |s.tasks|, k);
    assert SessionOk(s, c);
    ClientFrame(g, s, s', c);
  }

  lemma RegisterBufferKeeps(g: Config, s: State, c: nat, b: nat, a: Allocation, n: nat)
    requires Inv(g, s) && c < |s.clients| && s.clients[c].open
    requires b < |s.clients[c].buffers| && IdleBuffer(s.clients[c].buffers[b])
    requires a.next < U32 && a.id != 0 && !IdInUse(s.clients[c], a.id) && n <= g.ioMax
    ensures Inv(g, SetClient(s, c, SetBuffer(s.clients[c].(nextId := a.next), b,
                                             BufferSlot(a.id, 0, true, false, n))))
  {
    hide OpsOk, TasksOk, Counted, LedgerOk, TableOk;
    var cl := s.clients[c];
    var x := BufferSlot(a.id, 0, true, false, n);
    var cl' := SetBuffer(cl.(nextId := a.next), b, x);
    var s' := SetClient(s, c, cl');
    SetBufferOk(g, cl, b, x);
    assert forall n | 0 <= n < |cl.files| + |cl.buffers| :: IdAt(cl', n) == IdAt(SetBuffer(cl, b, x), n);
    assert BufferOk(g, cl.open, cl.buffers[b]);
    LedgerSame(s, s');
    TableSame(g, s, s', c);
    assert SessionOk(s, c);
    ClientFrame(g, s, s', c);
  }

  /** A registered file that no task uses is taken out and closed. */
  lemma DropFileKeeps(g: Config, s: State, c: nat, k: nat)
    requires Inv(g, s) && c < |s.clients| && k < |s.clients[c].files|
    requires s.clients[c].files[k].registered && s.clients[c].files[k].inFlight == 0
    ensures Inv(g, DropFile(g, s, c, k))
  {
    hide OpsOk, TasksOk, Counted, LedgerOk;
    var cl := s.clients[c];
    var s' := DropFile(g, s, c, k);
    assert FileOk(cl.open, cl.files[k]);
    SetFileOk(g, cl, k, FREE_FILE);
    var fd := cl.files[k].fd.value;
    Located(s, InSlot(c, k), fd);
    LedgerMove(s, s', fd, Closed);
    TableFrame(g, s, s', c, |s.tasks|, k);
    if cl.open { assert SessionOk(s, c); }
    ClientFrame(g, s, s', c);
  }

  /** A buffer that no task uses is given up. */
  lemma FreeBufferKeeps(g: Config, s: State, c: nat, b: nat)
    requires Inv(g, s) && c < |s.clients| && b < |s.clients[c].buffers|
    requires s.clients[c].buffers[b].inFlight == 0
    ensures Inv(g, SetClient(s, c, SetBuffer(s.clients[c], b, FREE_BUFFER)))
  {
    hide OpsOk, TasksOk, Counted, LedgerOk, TableOk;
    var cl := s.clients[c];
    var s' := SetClient(s, c, SetBuffer(cl, b, FREE_BUFFER));
    SetBufferOk(g, cl, b, FREE_BUFFER);
    LedgerSame(s, s');
    TableSame(g, s, s', c);
    if cl.open { assert SessionOk(s, c); }
    ClientFrame(g, s, s', c);
  }

  lemma TryReleaseFileKeeps(g: Config, s: State, c: nat, k: nat, updates: bool)
    requires Inv(g, s) && c < |s.clients| && k < |s.clients[c].files| && s.clients[c].files[k].closing
    ensures var r := TryReleaseFile(g, s, c, k, updates); r.Running? ==> Inv(g, r.state)
  {
    var f := s.clients[c].files[k];
    assert FileOk(s.clients[c].open, f);
    if f.registered && f.inFlight == 0 { DropFileKeeps(g, s, c, k); }
  }

  lemma TryReleaseBufferKeeps(g: Config, s: State, c: nat, b: nat)
    requires Inv(g, s) && c < |s.clients| && b < |s.clients[c].buffers|
    ensures Inv(g, TryReleaseBuffer(s, c, b))
  {
    if s.clients[c].buffers[b].inFlight == 0 { FreeBufferKeeps(g, s, c, b); }
  }

  // ---- connections ---------------------------------------------------------------------------

  lemma RetiredClientOk(g: Config, cl: Client)
    requires ClientOk(g, cl) && cl.open
    ensures ClientOk(g, RetireClient(cl))
  {
    var cl' := RetireClient(cl);
    assert forall n | 0 <= n < |cl.files| + |cl.buffers| :: IdAt(cl', n) == IdAt(cl, n);
    forall k | 0 <= k < |cl.files| ensures FileOk(false, cl'.files[k]) {
      assert FileOk(true, cl.files[k]);
    }
    forall b | 0 <= b < |cl.buffers| ensures BufferOk(g, false, cl'.buffers[b]) {
      assert BufferOk(g, true, cl.buffers[b]);
    }
  }

  /** Disconnection, once no fd is pending. */
  lemma RetireKeeps(g: Config, s: State, c: nat)
    requires Inv(g, s) && c < |s.clients| && s.clients[c].open && s.clients[c].received.None?
    ensures Inv(g, SetClient(s, c, RetireClient(s.clients[c])))
  {
    hide OpsOk, TasksOk, Counted, LedgerOk;
    var cl := s.clients[c];
    var s' := SetClient(s, c, RetireClient(cl));
    RetiredClientOk(g, cl);
    LedgerSame(s, s');
    IndexBelow(g, c, 0);
    TableFrame(g, s, s', c, |s.tasks|, 0) by {
      assert EntryOk(g, s.table, c, 0, cl.files[0]);
    }
    ClientFrame(g, s, s', c);
  }

  lemma CloseClientKeeps(g: Config, s: State, c: nat)
    requires Inv(g, s) && c < |s.clients| && s.clients[c].open
    ensures Inv(g, CloseClient(s, c))
  {
    hide Inv;
    var cl := s.clients[c];
    if cl.received.Some? {
      var s1 := CloseFd(SetClient(s, c, cl.(received := None)), cl.received.value);
      DropReceivedKeeps(g, s, c);
      RetireKeeps(g, s1, c);
      assert RetireClient(s1.clients[c]) == RetireClient(cl);
      assert s1.clients[c := RetireClient(cl)] == s.clients[c := RetireClient(cl)];
    } else {
      RetireKeeps(g, s, c);
    }
  }

  lemma ReceiveFdKeeps(g: Config, s: State, c: nat)
    requires Inv(g, s) && c < |s.clients| && s.clients[c].open
    ensures Inv(g, ReceiveFd(s, c))
  {
    hide Inv;
    if s.clients[c].received.Some? {
      DiscardKeeps(g, s);
      CloseClientKeeps(g, CloseFd(s.(issued := s.issued + 1), s.issued), c);
    } else {
      ArriveKeeps(g, s, c);
    }
  }

  lemma AcceptRequestKeeps(g: Config, s: State, c: nat, r: Request)
    requires Inv(g, s) && c < |s.clients| && Serving(s.clients[c]) && Deliverable(g, r)
    ensures Inv(g, AcceptRequest(s, c, r))
  {
    hide OpsOk, TasksOk, Counted, LedgerOk, TableOk;
    var cl := s.clients[c];
    if cl.received.Some? && !r.RegisterFd? {
      CloseClientKeeps(g, s, c);
    } else {
      var s' := AcceptRequest(s, c, r);
      assert forall n | 0 <= n < |cl.files| + |cl.buffers| :: IdAt(s'.clients[c], n) == IdAt(cl, n);
      LedgerSame(s, s');
      TableSame(g, s, s', c);
      assert SessionOk(s, c);
      ClientFrame(g, s, s', c);
    }
  }

  /** A slot that may be reused has no trace of its last connection. */
  lemma ReusableIsEmpty(g: Config, s: State, c: nat)
    requires Inv(g, s) && c < |s.clients| && Reusable(s.clients[c])
    ensures forall i | 0 <= i < |s.tasks| && s.tasks[i].active :: s.tasks[i].client != c
    ensures s.clients[c].files == seq(g.fileSlots, _ => FREE_FILE)
    ensures s.clients[c].buffers == seq(g.bufferSlots, _ => FREE_BUFFER)
    ensures s.clients[c].received.None? && s.clients[c].outstandingCredit == 0
  {
    hide OpsOk, TasksOk, LedgerOk, TableOk, SessionsOk, IdsDistinct;
    var cl := s.clients[c];
    assert CountedClient(cl, c, s.tasks);
    CountNone(OfClient(c), s.tasks);
    CountNone(CreditOf(c), s.tasks);
    assert forall i | 0 <= i < |s.tasks| && s.tasks[i].active :: !Hit(OfClient(c), s.tasks[i]);
    forall k | 0 <= k < |cl.files| ensures cl.files[k] == FREE_FILE {
      assert FileOk(cl.open, cl.files[k]);
    }
    forall b | 0 <= b < |cl.buffers| ensures cl.buffers[b] == FREE_BUFFER {
      assert BufferOk(g, cl.open, cl.buffers[b]);
    }
  }

  lemma FreshClientOk(g: Config, generation: nat)
    requires ConfigOk(g)
    ensures ClientOk(g, FreshClient(g, generation))
    ensures ClientOk(g, FreshClient(g, generation).(open := false))
  {
  }

  /** A client without tasks may become any other. */
  lemma IdleClientFrame(g: Config, s: State, s': State, c: nat)
    requires Touches(g, s, s', c, |s.tasks|) && TasksOk(g, s) && OpsOk(s)
    requires s'.ops == s.ops && s'.nextTaskId == s.nextTaskId
    requires forall i | 0 <= i < |s.tasks| && s.tasks[i].active :: s.tasks[i].client != c
    ensures TasksOk(g, s') && OpsOk(s')
  {
  }

  lemma OpenClientKeeps(g: Config, s: State)
    requires Inv(g, s)
    ensures Inv(g, OpenClient(g, s))
  {
    hide OpsOk, TasksOk, LedgerOk, TableOk, SessionsOk;
    var c := FirstReusable(s.clients);
    if c < |s.clients| {
      var s' := OpenClient(g, s);
      ReusableIsEmpty(g, s, c);
      FreshClientOk(g, s'.nextGeneration);
      assert CountedClient(s.clients[c], c, s.tasks);
      IdleClientFrame(g, s, s', c);
      CountedFrame(g, s, s', c, |s.tasks|);
      LedgerSame(s, s');
      TableSame(g, s, s', c);
      SessionsFrame(g, s, s', c, |s.tasks|);
    }
  }

  lemma InitialOk(g: Config)
    requires ConfigOk(g)
    ensures Inv(g, Initial(g))
  {
    var s := Initial(g);
    FreshClientOk(g, 0);
    forall q: Query ensures Count(q, s.tasks) == 0 { CountNone(q, s.tasks); }
    assert forall c | 0 <= c < |s.clients| :: CountedClient(s.clients[c], c, s.tasks);
    assert forall p :: Held(s, p).None?;
  }

  // ---- control requests ----------------------------------------------------------------------

  lemma DispatchRegisterFdKeeps(g: Config, s: State, c: nat, o: Oracle)
    requires Inv(g, s) && c < |s.clients| && Serving(s.clients[c])
    ensures var r := DispatchRegisterFd(g, s, c, o); r.Running? ==> Inv(g, r.state)
  {
    hide Inv;
    var cl := s.clients[c];
    if cl.received.None? {
      ReplyKeeps(g, s, c, 0, -EINVAL, o);
    } else {
      var fd := cl.received.value;
      var k := FirstIdleFile(cl.files);
      var a := Allocate(cl);
      AllocateSound(g, s, c);
      var dropped := CloseFd(SetClient(s, c, cl.(received := None)), fd);
      DropReceivedKeeps(g, s, c);
      var advanced := CloseFd(SetClient(s, c, cl.(received := None, nextId := a.next)), fd);
      assert Inv(g, advanced) by {
        CounterKeeps(g, dropped, c, a.next);
        assert advanced.clients == SetClient(dropped, c, dropped.clients[c].(nextId := a.next)).clients;
      }
      if k == |cl.files| {
        ReplyKeeps(g, dropped, c, 0, -EAGAIN, o);
      } else if a.id == 0 {
        ReplyKeeps(g, advanced, c, 0, -EOVERFLOW, o);
      } else if o.update != 0 {
        ReplyKeeps(g, advanced, c, 0, -(o.update as int), o);
      } else {
        RegisterFileKeeps(g, s, c, k, a);
        var cl' := SetFile(cl.(received := None, nextId := a.next), k, FileSlot(a.id, Some(fd), 0, true, false));
        ReplyKeeps(g, Move(SetClient(s, c, cl'), fd, InSlot(c, k)).(table := s.table[GlobalFile(g, c, k) := fd]),
                   c, a.id, 0, o);
      }
    }
  }

  lemma DispatchRegisterBufferKeeps(g: Config, s: State, c: nat, data: seq<Byte>, o: Oracle)
    requires Inv(g, s) && c < |s.clients| && Serving(s.clients[c]) && |data| <= g.ioMax
    ensures var r := DispatchRegisterBuffer(s, c, data, o); r.Running? ==> Inv(g, r.state)
  {
    hide Inv;
    var cl := s.clients[c];
    var b := FirstIdleBuffer(cl.buffers);
    var a := Allocate(cl);
    AllocateSound(g, s, c);
    if b == |cl.buffers| {
      ReplyKeeps(g, s, c, 0, -EAGAIN, o);
    } else if a.id == 0 {
      CounterKeeps(g, s, c, a.next);
      ReplyKeeps(g, SetClient(s, c, cl.(nextId := a.next)), c, 0, -EOVERFLOW, o);
    } else {
      RegisterBufferKeeps(g, s, c, b, a, |data|);
      ReplyKeeps(g, SetClient(s, c, SetBuffer(cl.(nextId := a.next), b, BufferSlot(a.id, 0, true, false, |data|))),
                 c, a.id, 0, o);
    }
  }

  lemma DispatchReleaseKeeps(g: Config, s: State, c: nat, id: nat, o: Oracle)
    requires Inv(g, s) && c < |s.clients| && Serving(s.clients[c])
    ensures var r := DispatchRelease(g, s, c, id, o); r.Running? ==> Inv(g, r.state)
  {
    hide Inv;
    var cl := s.clients[c];
    var k := FindFile(cl.files, id);
    var b := FindBuffer(cl.buffers, id);
    if id != 0 && k < |cl.files| && cl.files[k].inFlight == 0 {
      DropFileKeeps(g, s, c, k);
      ReplyKeeps(g, DropFile(g, s, c, k), c, id, 0, o);
    } else if id != 0 && k == |cl.files| && b < |cl.buffers| && cl.buffers[b].inFlight == 0 {
      FreeBufferKeeps(g, s, c, b);
      ReplyKeeps(g, SetClient(s, c, SetBuffer(cl, b, FREE_BUFFER)), c, id, 0, o);
    } else {
      ReplyKeeps(g, s, c, 0, -EINVAL, o);
      ReplyKeeps(g, s, c, 0, -EBUSY, o);
      ReplyKeeps(g, s, c, 0, -ENOENT, o);
    }
  }
}
