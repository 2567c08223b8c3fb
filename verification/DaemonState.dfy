/** The daemon's runtime as a value: client slots, task slots, per-client resource
    slots and counters, next to what the kernel holds for it (operations in flight,
    the fixed-file table) and to the histories the properties speak about (where every
    fd token is, what was closed, what was queued to each connection). */
module DaemonState {
  import opened Protocol

  datatype Capability =
    | OpReadv | OpWritev | OpAsyncCancel | OpReadFixed | OpWriteFixed
    | OpPoll | OpConnect | OpAccept | OpOpenat | OpClose

  /** The limits fixed at start-up. `ring_capacity` is `taskCapacity + 1`. */
  datatype Config = Config(
    maxClients: nat, fileSlots: nat, bufferSlots: nat,
    taskCapacity: nat, creditLimit: nat, ioMax: nat,
    supported: set<Capability>)

  /** The ranges that argument parsing and start-up enforce. */
  predicate ConfigOk(g: Config) {
    && 1 <= g.maxClients <= 64
    && 1 <= g.fileSlots <= 32
    && 1 <= g.bufferSlots <= 4
    && 1 <= g.taskCapacity <= 63
    && 1 <= g.creditLimit <= g.taskCapacity
    && 1 <= g.ioMax <= 4096
  }

  /** Fds are tokens: every fd the daemon ever receives is a new number. */
  type Fd = nat

  datatype FileSlot = FileSlot(
    id: nat, fd: Option<Fd>, inFlight: nat, registered: bool, closing: bool)

  datatype BufferSlot = BufferSlot(
    id: nat, inFlight: nat, registered: bool, closing: bool, validLength: nat)

  const FREE_FILE := FileSlot(0, None, 0, false, false)
  const FREE_BUFFER := BufferSlot(0, 0, false, false, 0)

  datatype Client = Client(
    open: bool, generation: nat, submit: bool,  // the phase: SUBMIT, or else HANDSHAKE
    received: Option<Fd>, request: Option<Request>,
    outstanding: nat, outstandingCredit: nat, nextId: nat,
    files: seq<FileSlot>, buffers: seq<BufferSlot>)

  /** A connection past its handshake. */
  predicate Serving(cl: Client) {
    cl.open && cl.submit
  }

  /** A task slot; -1 in an index field means that the task names no such slot. */
  datatype Task = Task(
    active: bool, credit: bool, id: nat, kind: Kind,
    client: nat, generation: nat,
    file: int, buffer: int, result: int,
    resourceId: nat, bufferId: nat, resultId: nat,
    closeFd: Option<Fd>, length: nat)

  const IDLE_TASK := Task(false, false, 0, KNop, 0, 0, -1, -1, -1, 0, 0, 0, None, 0)

  /** An operation the kernel has accepted and not yet completed. It works in the
      memory of one task slot and, for most kinds, on one fd, resolved at submission. */
  datatype Op = Op(slot: nat, fd: Option<Fd>)

  /** Where an fd token is. */
  datatype Place =
    | Received(client: nat)
    | InSlot(owner: nat, index: nat)
    | CloseOp(task: nat)
    | Closed

  /** A record queued on a connection. */
  datatype Record =
    | HandshakeResult(accepted: bool)
    | SubmitResult(id: nat, res: int)
    | Completion(task: nat, kind: Kind, result: int, payload: nat)
    | Payload(length: nat)
    | ResourceResult(resource: nat, status: int)
    | StatsResult
    | TraceResult

  datatype State = State(
    clients: seq<Client>, tasks: seq<Task>,
    nextTaskId: nat, nextGeneration: nat,
    outstanding: int, outstandingCredit: int,
    accepted: nat, rejected: nat, completions: nat,
    ops: map<nat, Op>, table: map<nat, Fd>,
    issued: nat, ledger: map<Fd, Place>, closed: seq<Fd>,
    logs: seq<seq<Record>>)

  /** Every step either leaves the daemon running or ends its event loop. */
  datatype Outcome = Running(state: State) | Stopped

  ghost predicate Shape(g: Config, s: State) {
    && ConfigOk(g)
    && |s.clients| == |s.logs| == g.maxClients
    && |s.tasks| == g.taskCapacity
    && (forall i | 0 <= i < |s.tasks| :: s.tasks[i].client < g.maxClients)
    && (forall c | 0 <= c < |s.clients| ::
          |s.clients[c].files| == g.fileSlots && |s.clients[c].buffers| == g.bufferSlots)
  }

  // ---- slot searches ---------------------------------------------------------

  /** The test by which the daemon takes a slot for free. */
  predicate IdleFile(f: FileSlot) {
    !f.registered && !f.closing && f.inFlight == 0
  }

  predicate IdleBuffer(b: BufferSlot) {
    !b.registered && !b.closing && b.inFlight == 0
  }

  function FirstIdleFile(files: seq<FileSlot>, from: nat := 0): (k: nat)
    requires from <= |files|
    ensures from <= k <= |files|
    ensures forall j | from <= j < k :: !IdleFile(files[j])
    ensures k < |files| ==> IdleFile(files[k])
    decreases |files| - from
  {
    if from == |files| || IdleFile(files[from]) then from else FirstIdleFile(files, from + 1)
  }

  function FirstIdleBuffer(buffers: seq<BufferSlot>, from: nat := 0): (b: nat)
    requires from <= |buffers|
    ensures from <= b <= |buffers|
    ensures forall j | from <= j < b :: !IdleBuffer(buffers[j])
    ensures b < |buffers| ==> IdleBuffer(buffers[b])
    decreases |buffers| - from
  {
    if from == |buffers| || IdleBuffer(buffers[from]) then from else FirstIdleBuffer(buffers, from + 1)
  }

  function FindFile(files: seq<FileSlot>, id: nat, from: nat := 0): (k: nat)
    requires from <= |files|
    ensures from <= k <= |files|
    ensures forall j | from <= j < k :: !(files[j].registered && files[j].id == id)
    ensures k < |files| ==> files[k].registered && files[k].id == id
    decreases |files| - from
  {
    if from == |files| || (files[from].registered && files[from].id == id) then from
    else FindFile(files, id, from + 1)
  }

  function FindBuffer(buffers: seq<BufferSlot>, id: nat, from: nat := 0): (b: nat)
    requires from <= |buffers|
    ensures from <= b <= |buffers|
    ensures forall j | from <= j < b :: !(buffers[j].registered && buffers[j].id == id)
    ensures b < |buffers| ==> buffers[b].registered && buffers[b].id == id
    decreases |buffers| - from
  {
    if from == |buffers| || (buffers[from].registered && buffers[from].id == id) then from
    else FindBuffer(buffers, id, from + 1)
  }

  function FirstIdleTask(tasks: seq<Task>, from: nat := 0): (i: nat)
    requires from <= |tasks|
    ensures from <= i <= |tasks|
    ensures forall j | from <= j < i :: tasks[j].active
    ensures i < |tasks| ==> !tasks[i].active
    decreases |tasks| - from
  {
    if from == |tasks| || !tasks[from].active then from else FirstIdleTask(tasks, from + 1)
  }

  function FindTask(tasks: seq<Task>, id: nat, from: nat := 0): (i: nat)
    requires from <= |tasks|
    ensures from <= i <= |tasks|
    ensures forall j | from <= j < i :: !(tasks[j].active && tasks[j].id == id)
    ensures i < |tasks| ==> tasks[i].active && tasks[i].id == id
    decreases |tasks| - from
  {
    if from == |tasks| || (tasks[from].active && tasks[from].id == id) then from
    else FindTask(tasks, id, from + 1)
  }

  // ---- resource ids ----------------------------------------------------------

  /** iouringd_resource_id_in_use */
  predicate IdInUse(cl: Client, id: nat) {
    || (exists k | 0 <= k < |cl.files| :: cl.files[k].id == id && !IdleFile(cl.files[k]))
    || (exists b | 0 <= b < |cl.buffers| :: cl.buffers[b].id == id && !IdleBuffer(cl.buffers[b]))
  }

  /** The counter is a C `unsigned`. */
  function Wrap32(n: nat): (r: nat)
    ensures r < U32
    ensures n < U32 ==> r == n
  {
    n % U32
  }

  datatype Allocation = Allocation(id: nat, next: nat)

  /** The allocator's loop with `attempts` tries left: the id, 0 when it gave up,
      and the counter it leaves. */
  function AllocateFrom(cl: Client, next: nat, attempts: nat): Allocation
    decreases attempts
  {
    if attempts == 0 then Allocation(0, next)
    else if next == 0 || IdInUse(cl, next) then AllocateFrom(cl, Wrap32(next + 1), attempts - 1)
    else Allocation(next, Wrap32(next + 1))
  }

  function Allocate(cl: Client): Allocation {
    AllocateFrom(cl, cl.nextId, |cl.files| + |cl.buffers|)
  }

  // ---- kernel tables ---------------------------------------------------------

  /** iouringd_global_file_index */
  function GlobalFile(g: Config, c: nat, k: nat): nat {
    c * g.fileSlots + k
  }

  /** iouringd_global_buffer_index */
  function GlobalBuffer(g: Config, c: nat, b: nat): nat {
    c * g.bufferSlots + b
  }

  // ---- small state changes ---------------------------------------------------

  function SetClient(s: State, c: nat, cl: Client): State
    requires c < |s.clients|
  {
    s.(clients := s.clients[c := cl])
  }

  function SetFile(cl: Client, k: nat, f: FileSlot): Client
    requires k < |cl.files|
  {
    cl.(files := cl.files[k := f])
  }

  function SetBuffer(cl: Client, b: nat, x: BufferSlot): Client
    requires b < |cl.buffers|
  {
    cl.(buffers := cl.buffers[b := x])
  }

  function Move(s: State, fd: Fd, place: Place): State {
    s.(ledger := s.ledger[fd := place])
  }

  /** close(2) on a token. */
  function CloseFd(s: State, fd: Fd): State {
    Move(s, fd, Closed).(closed := s.closed + [fd])
  }

  function Queue(s: State, c: nat, records: seq<Record>): State
    requires c < |s.logs|
  {
    s.(logs := s.logs[c := s.logs[c] + records])
  }
}
