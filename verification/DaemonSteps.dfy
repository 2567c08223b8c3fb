/** The daemon's steps as functions on states. Whatever the daemon asks of the outside
    (the kernel's answers, room in an output buffer) is a parameter of the step. */
module DaemonSteps {
  import opened Protocol
  import opened DaemonState

  /** What one dispatch meets: whether the reply fits the client's output buffer, the
      errno of the fixed-file table update and of the ring submission (0 is success), and
      whether the table entry could be put back after a failed CLOSE submission. */
  datatype Oracle = Oracle(fits: bool, update: nat, submit: nat, restores: bool)

  /** A completion: its result, the address length that accept wrote back, whether its
      record fits, the errno of installing a new file, and whether a drained slot's table
      entry could be cleared. */
  datatype Cqe = Cqe(res: int, addressLength: nat, fits: bool, update: nat, releases: bool)

  datatype Event =
    | Connect
    | FdArrives(client: nat)
    | Handshake(client: nat, accepted: bool, fits: bool)
    | Parsed(client: nat, request: Request)
    | Dispatch(client: nat, oracle: Oracle)
    | Reap(id: nat, cqe: Cqe)
    | SweepFile(client: nat, slot: nat, updates: bool)
    | SweepBuffer(client: nat, slot: nat)
    | Disconnect(client: nat)

  // ---- slots -----------------------------------------------------------------

  /** iouringd_clear_file_slot */
  function ClearFile(s: State, c: nat, k: nat): State
    requires c < |s.clients| && k < |s.clients[c].files|
  {
    var f := s.clients[c].files[k];
    var s' := SetClient(s, c, SetFile(s.clients[c], k, FREE_FILE));
    if f.fd.Some? then CloseFd(s', f.fd.value) else s'
  }

  /** Take a registered file out of the fixed-file table and close it. */
  function DropFile(g: Config, s: State, c: nat, k: nat): State
    requires c < |s.clients| && k < |s.clients[c].files|
  {
    ClearFile(s.(table := s.table - {GlobalFile(g, c, k)}), c, k)
  }

  /** iouringd_try_release_file_slot */
  function TryReleaseFile(g: Config, s: State, c: nat, k: nat, updates: bool): (r: Outcome)
    requires c < |s.clients| && k < |s.clients[c].files|
    ensures r.Running? ==> |r.state.clients| == |s.clients|
    ensures r.Running? ==> |r.state.clients[c].files| == |s.clients[c].files|
  {
    var f := s.clients[c].files[k];
    if !f.registered then
      Running(if f.inFlight == 0 then ClearFile(s, c, k) else s)
    else if f.inFlight != 0 || !f.closing then
      Running(s)
    else if !updates then
      Stopped
    else
      Running(DropFile(g, s, c, k))
  }

  /** iouringd_try_release_buffer_slot */
  function TryReleaseBuffer(s: State, c: nat, b: nat): State
    requires c < |s.clients| && b < |s.clients[c].buffers|
  {
    var x := s.clients[c].buffers[b];
    if x.inFlight == 0 && (!x.registered || x.closing) then
      SetClient(s, c, SetBuffer(s.clients[c], b, FREE_BUFFER))
    else
      s
  }

  // ---- connections -----------------------------------------------------------

  /** The negation of iouringd_client_has_retained_resources. */
  predicate NothingRetained(cl: Client) {
    && (forall k | 0 <= k < |cl.files| :: IdleFile(cl.files[k]))
    && (forall b | 0 <= b < |cl.buffers| :: IdleBuffer(cl.buffers[b]))
  }

  predicate Reusable(cl: Client) {
    !cl.open && NothingRetained(cl) && cl.outstanding == 0
  }

  function FirstReusable(clients: seq<Client>, from: nat := 0): (c: nat)
    requires from <= |clients|
    ensures from <= c <= |clients|
    ensures forall j | from <= j < c :: !Reusable(clients[j])
    ensures c < |clients| ==> Reusable(clients[c])
    decreases |clients| - from
  {
    if from == |clients| || Reusable(clients[from]) then from else FirstReusable(clients, from + 1)
  }

  function FreshClient(g: Config, generation: nat): Client {
    Client(true, generation, false, None, None, 0, 0, 1,
           seq(g.fileSlots, _ => FREE_FILE), seq(g.bufferSlots, _ => FREE_BUFFER))
  }

  /** iouringd_open_client; a connection that finds no slot is closed at once. */
  function OpenClient(g: Config, s: State): State
    requires |s.clients| == |s.logs|
  {
    var c := FirstReusable(s.clients);
    if c == |s.clients| then s
    else
      var generation := Wrap32(s.nextGeneration + 1);
      SetClient(s, c, FreshClient(g, generation)).(
        nextGeneration := generation, logs := s.logs[c := []])
  }

  function RetireFile(f: FileSlot): FileSlot {
    if f.registered then f.(closing := true) else f
  }

  function RetireBuffer(b: BufferSlot): BufferSlot {
    if b.registered then b.(closing := true) else b
  }

  function RetireClient(cl: Client): Client {
    cl.(open := false, submit := false, received := None, request := None,
        files := seq(|cl.files|, k requires 0 <= k < |cl.files| => RetireFile(cl.files[k])),
        buffers := seq(|cl.buffers|, b requires 0 <= b < |cl.buffers| => RetireBuffer(cl.buffers[b])))
  }

  /** iouringd_close_client */
  function CloseClient(s: State, c: nat): State
    requires c < |s.clients|
  {
    var cl := s.clients[c];
    var s' := SetClient(s, c, RetireClient(cl));
    if cl.received.Some? then CloseFd(s', cl.received.value) else s'
  }

  /** An fd arrives with a chunk of input; a second one is closed and ends the connection. */
  function ReceiveFd(s: State, c: nat): State
    requires c < |s.clients|
  {
    var fd := s.issued;
    var s' := s.(issued := fd + 1);
    if s.clients[c].received.Some? then
      CloseClient(CloseFd(s', fd), c)
    else
      Move(SetClient(s', c, s.clients[c].(received := Some(fd))), fd, Received(c))
  }

  /** iouringd_queue_handshake_result: a handshake that is accepted opens the submit phase. */
  function ReplyHandshake(s: State, c: nat, accepted: bool, fits: bool): Outcome
    requires c < |s.clients| == |s.logs|
  {
    if !fits then Stopped
    else Running(Queue(SetClient(s, c, s.clients[c].(submit := accepted)), c, [HandshakeResult(accepted)]))
  }

  /** The parser has a whole request; an fd may only accompany REGISTER_FD. */
  function AcceptRequest(s: State, c: nat, r: Request): State
    requires c < |s.clients|
  {
    if s.clients[c].received.Some? && !r.RegisterFd? then CloseClient(s, c)
    else SetClient(s, c, s.clients[c].(request := Some(r)))
  }

  // ---- dispatch: control requests ----------------------------------------------

  function ReplyResource(s: State, c: nat, id: nat, status: int, o: Oracle): Outcome
    requires c < |s.clients| == |s.logs|
  {
    if !o.fits then Stopped
    else Running(Queue(SetClient(s, c, s.clients[c].(request := None)), c, [ResourceResult(id, status)]))
  }

  function DispatchRegisterFd(g: Config, s: State, c: nat, o: Oracle): Outcome
    requires c < |s.clients| == |s.logs|
  {
    var cl := s.clients[c];
    if cl.received.None? then
      ReplyResource(s, c, 0, -EINVAL, o)
    else
      var fd := cl.received.value;
      var k := FirstIdleFile(cl.files);
      if k == |cl.files| then
        ReplyResource(CloseFd(SetClient(s, c, cl.(received := None)), fd), c, 0, -EAGAIN, o)
      else
        var a := Allocate(cl);
        var taken := cl.(received := None, nextId := a.next);
        if a.id == 0 then
          ReplyResource(CloseFd(SetClient(s, c, taken), fd), c, 0, -EOVERFLOW, o)
        else if o.update != 0 then
          ReplyResource(CloseFd(SetClient(s, c, taken), fd), c, 0, -(o.update as int), o)
        else
          var s' := SetClient(s, c, SetFile(taken, k, FileSlot(a.id, Some(fd), 0, true, false)));
          ReplyResource(Move(s', fd, InSlot(c, k)).(table := s.table[GlobalFile(g, c, k) := fd]),
                        c, a.id, 0, o)
  }

  function DispatchRegisterBuffer(s: State, c: nat, data: seq<Byte>, o: Oracle): Outcome
    requires c < |s.clients| == |s.logs|
  {
    var cl := s.clients[c];
    var b := FirstIdleBuffer(cl.buffers);
    if b == |cl.buffers| then
      ReplyResource(s, c, 0, -EAGAIN, o)
    else
      var a := Allocate(cl);
      var taken := cl.(nextId := a.next);
      if a.id == 0 then
        ReplyResource(SetClient(s, c, taken), c, 0, -EOVERFLOW, o)
      else
        ReplyResource(SetClient(s, c, SetBuffer(taken, b, BufferSlot(a.id, 0, true, false, |data|))),
                      c, a.id, 0, o)
  }

  function DispatchRelease(g: Config, s: State, c: nat, id: nat, o: Oracle): Outcome
    requires c < |s.clients| == |s.logs|
  {
    var cl := s.clients[c];
    var k := FindFile(cl.files, id);
    var b := FindBuffer(cl.buffers, id);
    if id == 0 then
      ReplyResource(s, c, 0, -EINVAL, o)
    else if k < |cl.files| then
      if cl.files[k].inFlight != 0 then ReplyResource(s, c, 0, -EBUSY, o)
      else if o.update != 0 then Stopped
      else ReplyResource(DropFile(g, s, c, k), c, id, 0, o)
    else if b < |cl.buffers| then
      if cl.buffers[b].inFlight != 0 then ReplyResource(s, c, 0, -EBUSY, o)
      else ReplyResource(SetClient(s, c, SetBuffer(cl, b, FREE_BUFFER)), c, id, 0, o)
    else
      ReplyResource(s, c, 0, -ENOENT, o)
  }

  // ---- dispatch: task submission -------------------------------------------------

  function CapabilityOf(k: Kind): Option<Capability> {
    match k
    case KSockRead | KFileRead => Some(OpReadv)
    case KSockWrite | KFileWrite => Some(OpWritev)
    case KCancel => Some(OpAsyncCancel)
    case KSockReadFixed => Some(OpReadFixed)
    case KSockWriteFixed => Some(OpWriteFixed)
    case KPoll => Some(OpPoll)
    case KConnect => Some(OpConnect)
    case KAccept => Some(OpAccept)
    case KOpenat => Some(OpOpenat)
    case KClose => Some(OpClose)
    case KNop | KTimeout => None
  }

  /** Whether the request's own fields are acceptable. */
  predicate ArgumentsOk(g: Config, r: Request)
    requires !IsControl(r)
  {
    match r
    case Nop => true
    case Timeout(_) => true
    case Cancel(target) => 0 < target < TASK_ID_RESERVED
    case Poll(resource, mask) => resource != 0 && mask != 0
    case Accept(resource, n) => resource != 0 && n <= g.ioMax && n < U16
    case Connect(resource, d) => resource != 0 && 0 < |d| <= g.ioMax && |d| < U16
    case Openat(_, _, d) => 2 <= |d| <= g.ioMax && d[|d| - 1] == 0
    case Close(resource) => resource != 0
    case SockReadFixed(resource, buffer, n) => resource != 0 && buffer != 0 && 0 < n <= g.ioMax
    case SockWriteFixed(resource, buffer, n) => resource != 0 && buffer != 0 && 0 < n <= g.ioMax
    case SockRead(resource, n) => resource != 0 && 0 < n <= g.ioMax
    case FileRead(resource, n) => resource != 0 && 0 < n <= g.ioMax
    case SockWrite(resource, d) => resource != 0 && 0 < |d| <= g.ioMax
    case FileWrite(resource, d) => resource != 0 && 0 < |d| <= g.ioMax
  }

  /** The checks before any slot is looked up: the errno of a refusal, 0 to go on. */
  function AdmissionError(g: Config, s: State, cl: Client, r: Request): nat
    requires !IsControl(r)
  {
    var capability := CapabilityOf(KindOf(r));
    if !r.Cancel? && s.outstandingCredit >= g.taskCapacity then EAGAIN
    else if !r.Cancel? && cl.outstandingCredit >= g.creditLimit then EAGAIN
    else if r.Cancel? && s.outstanding >= g.taskCapacity + 1 then EAGAIN
    else if capability.Some? && capability.value !in g.supported then ENOTSUP
    else if !ArgumentsOk(g, r) then EINVAL
    else 0
  }

  /** iouringd_reject_submit, then the request is done with. */
  function Reject(s: State, c: nat, error: nat, o: Oracle): Outcome
    requires c < |s.clients| == |s.logs|
  {
    if !o.fits then Stopped
    else Running(Queue(SetClient(s, c, s.clients[c].(request := None)).(rejected := s.rejected + 1),
                       c, [SubmitResult(0, -(error as int))]))
  }

  /** A refusal after task slot `i` was taken, and cleared again. */
  function RejectAt(s: State, c: nat, i: nat, error: nat, o: Oracle): Outcome
    requires c < |s.clients| == |s.logs| && i < |s.tasks|
  {
    Reject(s.(tasks := s.tasks[i := IDLE_TASK]), c, error, o)
  }

  /** Task `t` is in the ring on behalf of client `c`, whose record is now `cl`. */
  function Admit(s: State, c: nat, cl: Client, i: nat, t: Task, fd: Option<Fd>, o: Oracle): Outcome
    requires c < |s.clients| == |s.logs| && i < |s.tasks|
  {
    var credit := if t.credit then 1 else 0;
    var cl' := cl.(request := None, outstanding := cl.outstanding + 1,
                   outstandingCredit := cl.outstandingCredit + credit);
    if !o.fits then Stopped
    else Running(Queue(SetClient(s, c, cl').(
                         tasks := s.tasks[i := t],
                         nextTaskId := s.nextTaskId + 1,
                         outstanding := s.outstanding + 1,
                         outstandingCredit := s.outstandingCredit + credit,
                         accepted := s.accepted + 1,
                         ops := s.ops[t.id := Op(i, fd)]),
                       c, [SubmitResult(t.id, 0)]))
  }

  function NewTask(s: State, c: nat, kind: Kind): Task
    requires c < |s.clients|
  {
    IDLE_TASK.(active := true, credit := kind != KCancel, id := s.nextTaskId, kind := kind,
               client := c, generation := s.clients[c].generation)
  }

  function Reserve(cl: Client, k: nat, id: nat): Client
    requires k < |cl.files|
  {
    SetFile(cl, k, FileSlot(id, None, 1, false, false))
  }

  function DispatchOpenat(g: Config, s: State, c: nat, r: Request, o: Oracle): Outcome
    requires c < |s.clients| == |s.logs| && r.Openat?
  {
    var cl := s.clients[c];
    var k := FirstIdleFile(cl.files);
    if s.nextTaskId >= TASK_ID_RESERVED then Reject(s, c, EOVERFLOW, o)
    else if k == |cl.files| then Reject(s, c, EAGAIN, o)
    else
      var a := Allocate(cl);
      var taken := cl.(nextId := a.next);
      var i := FirstIdleTask(s.tasks);
      if a.id == 0 then Reject(SetClient(s, c, taken), c, EOVERFLOW, o)
      else if i == |s.tasks| then Reject(SetClient(s, c, taken), c, EAGAIN, o)
      else if o.submit != 0 then
        RejectAt(SetClient(s, c, SetFile(cl.(nextId := a.id), k, FREE_FILE)), c, i, o.submit, o)
      else
        var t := NewTask(s, c, KOpenat).(result := k, resultId := a.id, length := |r.data|);
        Admit(s, c, Reserve(taken, k, a.id), i, t, None, o)
  }

  function DispatchClose(g: Config, s: State, c: nat, id: nat, o: Oracle): Outcome
    requires c < |s.clients| == |s.logs|
  {
    var cl := s.clients[c];
    var k := FindFile(cl.files, id);
    if k == |cl.files| || cl.files[k].closing then Reject(s, c, ENOENT, o)
    else if cl.files[k].inFlight != 0 || cl.files[k].fd.None? then Reject(s, c, EBUSY, o)
    else if s.nextTaskId >= TASK_ID_RESERVED then Reject(s, c, EOVERFLOW, o)
    else
      var i := FirstIdleTask(s.tasks);
      if i == |s.tasks| then Reject(s, c, EAGAIN, o)
      else if o.update != 0 then Stopped
      else if o.submit != 0 then
        if !o.restores then Stopped
        else RejectAt(s.(table := s.table[GlobalFile(g, c, k) := cl.files[k].fd.value]),
                      c, i, o.submit, o)
      else
        var fd := cl.files[k].fd;
        var t := NewTask(s, c, KClose).(file := k, resourceId := id, closeFd := fd);
        Admit(Move(s.(table := s.table - {GlobalFile(g, c, k)}), fd.value, CloseOp(i)),
              c, SetFile(cl, k, FileSlot(id, None, 1, false, true)), i, t, fd, o)
  }

  /** The fd an operation works on: CONNECT and ACCEPT pass the slot's own fd, the others
      name an entry of the fixed-file table. */
  function ResolveFd(g: Config, s: State, c: nat, k: nat, kind: Kind): Option<Fd>
    requires c < |s.clients| && k < |s.clients[c].files|
  {
    if kind == KConnect || kind == KAccept then s.clients[c].files[k].fd
    else if GlobalFile(g, c, k) in s.table then Some(s.table[GlobalFile(g, c, k)])
    else None
  }

  /** Whether the request names a buffer it may not use: the errno, or 0. */
  function BufferError(cl: Client, r: Request): nat {
    if r.SockReadFixed? || r.SockWriteFixed? then
      var b := FindBuffer(cl.buffers, r.buffer);
      if b == |cl.buffers| || cl.buffers[b].closing then ENOENT
      else if r.SockWriteFixed? && r.length > cl.buffers[b].validLength then EINVAL
      else 0
    else 0
  }

  function Unpin(f: FileSlot): FileSlot {
    if f.inFlight != 0 then f.(inFlight := f.inFlight - 1) else f
  }

  function UnpinBuffer(b: BufferSlot): BufferSlot {
    if b.inFlight != 0 then b.(inFlight := b.inFlight - 1) else b
  }

  function PinFile(cl: Client, k: nat): Client
    requires k < |cl.files|
  {
    SetFile(cl, k, cl.files[k].(inFlight := cl.files[k].inFlight + 1))
  }

  function PinBuffer(cl: Client, b: nat): Client
    requires b < |cl.buffers|
  {
    SetBuffer(cl, b, cl.buffers[b].(inFlight := cl.buffers[b].inFlight + 1))
  }

  predicate IsFileOp(r: Request) {
    !IsControl(r) && NamesFile(KindOf(r)) && !r.Close?
  }

  /** The record of a task on file slot `k`. */
  function FileTask(s: State, c: nat, r: Request, k: nat): Task
    requires c < |s.clients| && IsFileOp(r)
  {
    NewTask(s, c, KindOf(r)).(file := k, resourceId := r.resource, length := LengthOf(r))
  }

  function DispatchFileOp(g: Config, s: State, c: nat, r: Request, o: Oracle): Outcome
    requires c < |s.clients| == |s.logs| && IsFileOp(r)
  {
    var cl := s.clients[c];
    var k := FindFile(cl.files, r.resource);
    if k == |cl.files| || cl.files[k].closing then Reject(s, c, ENOENT, o)
    else if (r.Connect? || r.Accept?) && cl.files[k].fd.None? then Reject(s, c, EBADF, o)
    else if BufferError(cl, r) != 0 then Reject(s, c, BufferError(cl, r), o)
    else if s.nextTaskId >= TASK_ID_RESERVED then Reject(s, c, EOVERFLOW, o)
    else
      var i := FirstIdleTask(s.tasks);
      var fd := ResolveFd(g, s, c, k, KindOf(r));
      var pinned := PinFile(cl, k);
      var t := FileTask(s, c, r, k);
      if i == |s.tasks| then Reject(s, c, EAGAIN, o)
      else if r.Accept? then
        var k' := FirstIdleFile(pinned.files);
        var a := Allocate(pinned);
        if k' == |cl.files| then RejectAt(s, c, i, EAGAIN, o)
        else if a.id == 0 then RejectAt(SetClient(s, c, cl.(nextId := a.next)), c, i, EOVERFLOW, o)
        else if o.submit != 0 then
          RejectAt(SetClient(s, c, SetFile(cl.(nextId := a.id), k', FREE_FILE)), c, i, o.submit, o)
        else
          Admit(s, c, Reserve(pinned.(nextId := a.next), k', a.id), i,
                t.(result := k', resultId := a.id), fd, o)
      else if o.submit != 0 then RejectAt(s, c, i, o.submit, o)
      else if r.SockReadFixed? || r.SockWriteFixed? then
        var b := FindBuffer(cl.buffers, r.buffer);
        Admit(s, c, PinBuffer(pinned, b), i, t.(buffer := b, bufferId := r.buffer), fd, o)
      else
        Admit(s, c, pinned, i, t, fd, o)
  }

  /** NOP, TIMEOUT and CANCEL. */
  function DispatchPlain(s: State, c: nat, r: Request, o: Oracle): Outcome
    requires c < |s.clients| == |s.logs| && !IsControl(r)
  {
    var i := FirstIdleTask(s.tasks);
    if s.nextTaskId >= TASK_ID_RESERVED then Reject(s, c, EOVERFLOW, o)
    else if i == |s.tasks| then Reject(s, c, EAGAIN, o)
    else if o.submit != 0 then RejectAt(s, c, i, o.submit, o)
    else Admit(s, c, s.clients[c], i, NewTask(s, c, KindOf(r)), None, o)
  }

  function DispatchSubmit(g: Config, s: State, c: nat, r: Request, o: Oracle): Outcome
    requires c < |s.clients| == |s.logs| && !IsControl(r)
  {
    var error := AdmissionError(g, s, s.clients[c], r);
    if error != 0 then Reject(s, c, error, o)
    else if r.Openat? then DispatchOpenat(g, s, c, r, o)
    else if r.Close? then DispatchClose(g, s, c, r.resource, o)
    else if IsFileOp(r) then DispatchFileOp(g, s, c, r, o)
    else DispatchPlain(s, c, r, o)
  }

  function QueueReply(s: State, c: nat, record: Record, fits: bool): Outcome
    requires c < |s.clients| == |s.logs|
  {
    if !fits then Stopped
    else Running(Queue(SetClient(s, c, s.clients[c].(request := None)), c, [record]))
  }

  /** iouringd_dispatch_client_request */
  function DispatchRequest(g: Config, s: State, c: nat, o: Oracle): Outcome
    requires c < |s.clients| == |s.logs| && s.clients[c].request.Some?
  {
    match s.clients[c].request.value
    case RegisterFd => DispatchRegisterFd(g, s, c, o)
    case RegisterBuffer(data) => DispatchRegisterBuffer(s, c, data, o)
    case ReleaseResource(id) => DispatchRelease(g, s, c, id, o)
    case GetStats => QueueReply(s, c, StatsResult, o.fits)
    case GetTrace(_, _) => QueueReply(s, c, TraceResult, o.fits)
    case r => DispatchSubmit(g, s, c, r, o)
  }

  // ---- completion ----------------------------------------------------------------

  /** What becomes of the file that an accept or openat produced. */
  datatype Product = NoFile | Discarded(res: int) | Installed

  /** iouringd_prepare_accept_completion and iouringd_prepare_openat_completion */
  function ProductOf(cl: Client, t: Task, q: Cqe): Product {
    if !MakesFile(t.kind) || q.res < 0 then NoFile
    else if t.result < 0 then Discarded(-EIO)
    else if t.result >= |cl.files| then Discarded(if t.kind == KAccept then -EIO else -EPROTO)
    else if t.kind == KAccept && q.addressLength > t.length then Discarded(-EPROTO)
    else if t.resultId == 0 || t.resultId > INT32_MAX then Discarded(-EPROTO)
    else if !cl.open || cl.generation != t.generation then Discarded(q.res)
    else if q.update != 0 then Discarded(-(q.update as int))
    else Installed
  }

  function ReportedResult(t: Task, q: Cqe, p: Product): int {
    match p
    case NoFile => q.res
    case Discarded(res) => res
    case Installed => t.resultId
  }

  /** The record's 16-bit payload length. */
  function ReportedPayload(t: Task, q: Cqe, p: Product): nat {
    if ReadsData(t.kind) && q.res > 0 then q.res % U16
    else if t.kind == KAccept && p.Installed? then q.addressLength % U16
    else 0
  }

  /** Whether the daemon has the bytes to send after the record. */
  predicate PayloadPresent(cl: Client, t: Task, q: Cqe, p: Product) {
    || ((t.kind == KSockRead || t.kind == KFileRead) && q.res > 0)
    || (t.kind == KSockReadFixed && 0 <= t.buffer < |cl.buffers| && q.res > 0)
    || (t.kind == KAccept && p.Installed? && q.addressLength != 0)
  }

  function Report(cl: Client, t: Task, q: Cqe): seq<Record> {
    var p := ProductOf(cl, t, q);
    var n := ReportedPayload(t, q, p);
    [Completion(t.id, t.kind, ReportedResult(t, q, p), n)]
    + if n != 0 && PayloadPresent(cl, t, q, p) then [Payload(n)] else []
  }

  /** The file slots after the task let go of them: a CLOSE leaves its slot free, any
      other task unpins it; a result slot holds the new file or is free again. */
  function SettledFiles(s: State, t: Task, p: Product, files: seq<FileSlot>): (r: seq<FileSlot>)
    ensures |r| == |files|
  {
    var unpinned :=
      if 0 <= t.file < |files| then
        files[t.file := if t.kind == KClose then FREE_FILE else Unpin(files[t.file])]
      else files;
    if 0 <= t.result < |files| then
      unpinned[t.result := if p.Installed? then FileSlot(t.resultId, Some(s.issued), 0, true, false)
                           else FREE_FILE]
    else unpinned
  }

  function SettledBuffers(t: Task, q: Cqe, buffers: seq<BufferSlot>): (r: seq<BufferSlot>)
    ensures |r| == |buffers|
  {
    if 0 <= t.buffer < |buffers| then
      var x := UnpinBuffer(buffers[t.buffer]);
      buffers[t.buffer := if t.kind == KSockReadFixed && q.res >= 0 then x.(validLength := q.res) else x]
    else buffers
  }

  /** The fd ledger and table after the completion: a new file is in its slot or closed,
      and the kernel has closed what a CLOSE was given. */
  function SettledFds(g: Config, s: State, t: Task, p: Product): (r: State)
    ensures r.clients == s.clients && r.tasks == s.tasks && r.logs == s.logs && r.ops == s.ops
  {
    var s1 :=
      match p
      case NoFile => s
      case Discarded(_) => CloseFd(s.(issued := s.issued + 1), s.issued)
      case Installed =>
        var k: nat := if t.result < 0 then 0 else t.result;
        Move(s.(issued := s.issued + 1, table := s.table[GlobalFile(g, t.client, k) := s.issued]),
             s.issued, InSlot(t.client, k));
    if t.closeFd.Some? then CloseFd(s1, t.closeFd.value) else s1
  }

  function Less(n: nat): nat {
    if n == 0 then 0 else n - 1
  }

  function SettledClient(s: State, t: Task, q: Cqe, p: Product, cl: Client): Client {
    cl.(files := SettledFiles(s, t, p, cl.files),
        buffers := SettledBuffers(t, q, cl.buffers),
        outstanding := Less(cl.outstanding),
        outstandingCredit := if t.credit then Less(cl.outstandingCredit) else cl.outstandingCredit)
  }

  /** The task is over: its slot is cleared, its pins and counts are given back and its
      completion is queued if its connection is still there. */
  function Settle(g: Config, s: State, i: nat, q: Cqe): (r: State)
    requires i < |s.tasks| && s.tasks[i].client < |s.clients| == |s.logs|
    ensures |r.clients| == |s.clients| == |r.logs|
  {
    var t := s.tasks[i];
    var c := t.client;
    var cl := s.clients[c];
    var p := ProductOf(cl, t, q);
    var credit := if t.credit then 1 else 0;
    var s1 := SetClient(SettledFds(g, s, t, p), c, SettledClient(s, t, q, p, cl)).(
      tasks := s.tasks[i := IDLE_TASK],
      outstanding := s.outstanding - 1,
      outstandingCredit := s.outstandingCredit - credit,
      completions := s.completions + 1,
      ops := s.ops - {t.id});
    if cl.open && cl.generation == t.generation then Queue(s1, c, Report(cl, t, q)) else s1
  }

  /** Release file slot `k`, if it names one, when it was only waiting to drain. */
  function ReleaseFileAfter(g: Config, s: State, c: nat, k: int, releases: bool): (r: Outcome)
    requires c < |s.clients|
    ensures r.Running? ==> |r.state.clients| == |s.clients|
  {
    if 0 <= k < |s.clients[c].files| && s.clients[c].files[k].closing
    then TryReleaseFile(g, s, c, k, releases)
    else Running(s)
  }

  function ReleaseBufferAfter(s: State, c: nat, b: int): State
    requires c < |s.clients|
  {
    if 0 <= b < |s.clients[c].buffers| && s.clients[c].buffers[b].closing
    then TryReleaseBuffer(s, c, b)
    else s
  }

  /** iouringd_complete_task: settle the task, then release what was only waiting for it. */
  function CompleteTask(g: Config, s: State, i: nat, q: Cqe): Outcome
    requires i < |s.tasks| && s.tasks[i].client < |s.clients| == |s.logs|
  {
    var t := s.tasks[i];
    var c := t.client;
    var cl := s.clients[c];
    if cl.open && cl.generation == t.generation && !q.fits then Stopped
    else
      match ReleaseFileAfter(g, Settle(g, s, i, q), c, t.file, q.releases)
      case Stopped => Stopped
      case Running(s') => Running(ReleaseBufferAfter(s', c, t.buffer))
  }

  /** One turn of iouringd_reap_completions; an unknown id ends the event loop. */
  function ReapOne(g: Config, s: State, id: nat, q: Cqe): Outcome
    requires |s.clients| == |s.logs|
    requires forall i | 0 <= i < |s.tasks| :: s.tasks[i].client < |s.clients|
  {
    var i := FindTask(s.tasks, id);
    if i == |s.tasks| then Stopped else CompleteTask(g, s, i, q)
  }

  // ---- sweep ---------------------------------------------------------------------------

  /** iouringd_sweep_closing_resources over the file slots of client `c` from `k` on;
      `updates` says whether the kernel clears every table entry it is asked to. */
  function SweepFilesFrom(g: Config, s: State, c: nat, k: nat, updates: bool): (r: Outcome)
    requires c < |s.clients| && k <= |s.clients[c].files|
    ensures r.Running? ==> |r.state.clients| == |s.clients|
    decreases |s.clients[c].files| - k
  {
    if k == |s.clients[c].files| then Running(s)
    else
      var f := s.clients[c].files[k];
      if !f.closing || f.inFlight != 0 then SweepFilesFrom(g, s, c, k + 1, updates)
      else
        match TryReleaseFile(g, s, c, k, updates)
        case Stopped => Stopped
        case Running(s') => SweepFilesFrom(g, s', c, k + 1, updates)
  }

  function SweepBuffersFrom(s: State, c: nat, b: nat): (r: State)
    requires c < |s.clients| && b <= |s.clients[c].buffers|
    ensures |r.clients| == |s.clients|
    decreases |s.clients[c].buffers| - b
  {
    if b == |s.clients[c].buffers| then s
    else
      var x := s.clients[c].buffers[b];
      SweepBuffersFrom(if x.closing && x.inFlight == 0 then TryReleaseBuffer(s, c, b) else s, c, b + 1)
  }

  function SweepFrom(g: Config, s: State, c: nat, updates: bool): Outcome
    requires c <= |s.clients|
    decreases |s.clients| - c
  {
    if c == |s.clients| then Running(s)
    else
      match SweepFilesFrom(g, s, c, 0, updates)
      case Stopped => Stopped
      case Running(s') => SweepFrom(g, SweepBuffersFrom(s', c, 0), c + 1, updates)
  }

  // ---- the step relation -----------------------------------------------------------

  /** What the parser lets through: a registered buffer's contents fit its region. */
  predicate Deliverable(g: Config, r: Request) {
    r.RegisterBuffer? ==> |r.data| <= g.ioMax
  }

  /** What the kernel may answer to task `t`: a read is never longer than asked for. */
  predicate KernelMayAnswer(t: Task, q: Cqe) {
    && (ReadsData(t.kind) ==> q.res <= t.length)
    && (t.kind == KAccept && t.length == 0 ==> q.addressLength == 0)
  }

  /** When an event can happen. Only operations in flight complete. */
  ghost predicate Enabled(g: Config, s: State, e: Event)
    requires Shape(g, s)
  {
    match e
    case Connect => true
    case FdArrives(c) => c < g.maxClients && s.clients[c].open && s.clients[c].request.None?
    case Handshake(c, _, _) => c < g.maxClients && s.clients[c].open && !s.clients[c].submit
    case Parsed(c, r) =>
      c < g.maxClients && Serving(s.clients[c]) && s.clients[c].request.None? && Deliverable(g, r)
    case Dispatch(c, _) => c < g.maxClients && s.clients[c].open && s.clients[c].request.Some?
    case Reap(id, q) =>
      && id in s.ops
      && (var i := FindTask(s.tasks, id); i < |s.tasks| ==> KernelMayAnswer(s.tasks[i], q))
    case SweepFile(c, k, _) =>
      && c < g.maxClients && k < g.fileSlots
      && s.clients[c].files[k].closing && s.clients[c].files[k].inFlight == 0
    case SweepBuffer(c, b) =>
      && c < g.maxClients && b < g.bufferSlots
      && s.clients[c].buffers[b].closing && s.clients[c].buffers[b].inFlight == 0
    case Disconnect(c) => c < g.maxClients && s.clients[c].open
  }

  ghost function Step(g: Config, s: State, e: Event): Outcome
    requires Shape(g, s) && Enabled(g, s, e)
  {
    match e
    case Connect => Running(OpenClient(g, s))
    case FdArrives(c) => Running(ReceiveFd(s, c))
    case Handshake(c, accepted, fits) => ReplyHandshake(s, c, accepted, fits)
    case Parsed(c, r) => Running(AcceptRequest(s, c, r))
    case Dispatch(c, o) => DispatchRequest(g, s, c, o)
    case Reap(id, q) => ReapOne(g, s, id, q)
    case SweepFile(c, k, updates) => TryReleaseFile(g, s, c, k, updates)
    case SweepBuffer(c, b) => Running(TryReleaseBuffer(s, c, b))
    case Disconnect(c) => Running(CloseClient(s, c))
  }

  /** The state before any connection. */
  function Initial(g: Config): State {
    var nobody := FreshClient(g, 0).(open := false);
    State(seq(g.maxClients, _ => nobody), seq(g.taskCapacity, _ => IDLE_TASK),
          1, 0, 0, 0, 0, 0, 0, map[], map[], 0, map[], [], seq(g.maxClients, _ => []))
  }

  /** `events` lead from `s` to `s'` without ending the event loop. */
  ghost predicate Reaches(g: Config, s: State, events: seq<Event>, s': State)
    decreases |events|
  {
    if events == [] then s' == s
    else
      && Shape(g, s)
      && Enabled(g, s, events[0])
      && Step(g, s, events[0]).Running?
      && Reaches(g, Step(g, s, events[0]).state, events[1..], s')
  }
}
