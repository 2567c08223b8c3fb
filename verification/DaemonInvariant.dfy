/** What every running state of the daemon satisfies. */
module DaemonInvariant {
  import opened Protocol
  import opened DaemonState
  import opened DaemonSteps

  // ---- the shapes of a slot ----------------------------------------------------

  /** The five shapes of a file slot. */
  predicate FreeFile(f: FileSlot) {
    f == FREE_FILE
  }

  predicate ReservedFile(f: FileSlot) {
    f.id != 0 && f.fd.None? && f.inFlight == 1 && !f.registered && !f.closing
  }

  predicate RegisteredFile(f: FileSlot) {
    f.id != 0 && f.fd.Some? && f.registered && !f.closing
  }

  predicate DrainingFile(f: FileSlot) {
    f.id != 0 && f.fd.Some? && f.registered && f.closing
  }

  predicate KernelClosingFile(f: FileSlot) {
    f.id != 0 && f.fd.None? && f.inFlight == 1 && !f.registered && f.closing
  }

  /** A file is registered only while its client is connected, and drains only after. */
  predicate FileOk(open: bool, f: FileSlot) {
    || FreeFile(f)
    || ReservedFile(f)
    || (open && RegisteredFile(f))
    || (!open && DrainingFile(f))
    || KernelClosingFile(f)
  }

  predicate BufferOk(g: Config, open: bool, b: BufferSlot) {
    || b == FREE_BUFFER
    || (b.id != 0 && b.registered && b.closing == !open && b.validLength <= g.ioMax)
  }

  // ---- clients -------------------------------------------------------------------

  /** Resource ids of a client, file slots first; free slots have id 0. */
  function IdAt(cl: Client, n: nat): nat
    requires n < |cl.files| + |cl.buffers|
  {
    if n < |cl.files| then cl.files[n].id else cl.buffers[n - |cl.files|].id
  }

  ghost predicate IdsDistinct(cl: Client) {
    forall m, n | 0 <= m < n < |cl.files| + |cl.buffers| ::
      IdAt(cl, m) == IdAt(cl, n) ==> IdAt(cl, m) == 0
  }

  ghost predicate ClientOk(g: Config, cl: Client) {
    && (forall k | 0 <= k < |cl.files| :: FileOk(cl.open, cl.files[k]))
    && (forall b | 0 <= b < |cl.buffers| :: BufferOk(g, cl.open, cl.buffers[b]))
    && IdsDistinct(cl)
    && cl.nextId < U32
    && (!cl.open ==> cl.received.None? && cl.request.None?)
    && (cl.request.Some? ==> cl.submit && Deliverable(g, cl.request.value))
    && cl.outstandingCredit <= g.creditLimit
  }

  ghost predicate ClientsOk(g: Config, s: State) {
    forall c | 0 <= c < |s.clients| :: ClientOk(g, s.clients[c])
  }

  // ---- tasks ---------------------------------------------------------------------

  /** What an active task of client `cl` relies on until it completes. */
  predicate TaskOk(g: Config, cl: Client, t: Task) {
    && t.generation == cl.generation
    && t.credit == (t.kind != KCancel)
    && (t.file >= 0) == NamesFile(t.kind)
    && (t.buffer >= 0) == NamesBuffer(t.kind)
    && (t.result >= 0) == MakesFile(t.kind)
    && t.closeFd.Some? == (t.kind == KClose)
    && (ReadsData(t.kind) || t.kind == KAccept ==> t.length <= g.ioMax)
    && (t.file >= 0 ==>
          && t.file < |cl.files|
          && cl.files[t.file].id == t.resourceId
          && if t.kind == KClose then KernelClosingFile(cl.files[t.file]) else cl.files[t.file].registered)
    && (t.buffer >= 0 ==>
          && t.buffer < |cl.buffers|
          && cl.buffers[t.buffer].id == t.bufferId
          && cl.buffers[t.buffer].registered)
    && (t.result >= 0 ==>
          && t.result < |cl.files|
          && cl.files[t.result].id == t.resultId
          && ReservedFile(cl.files[t.result]))
  }

  ghost predicate TasksOk(g: Config, s: State) {
    forall i | 0 <= i < |s.tasks| ::
      if s.tasks[i].active then
        && 0 < s.tasks[i].id < s.nextTaskId
        && s.tasks[i].client < |s.clients|
        && TaskOk(g, s.clients[s.tasks[i].client], s.tasks[i])
      else s.tasks[i] == IDLE_TASK
  }

  // ---- counting active tasks -------------------------------------------------------

  datatype Query =
    | UsesFile(client: nat, slot: nat)
    | UsesBuffer(client: nat, slot: nat)
    | OfClient(client: nat)
    | CreditOf(client: nat)
    | Every
    | EveryCredit

  predicate Hit(q: Query, t: Task) {
    t.active &&
    match q
    case UsesFile(c, k) => t.client == c && (t.file == k || t.result == k)
    case UsesBuffer(c, b) => t.client == c && t.buffer == b
    case OfClient(c) => t.client == c
    case CreditOf(c) => t.client == c && t.credit
    case Every => true
    case EveryCredit => t.credit
  }

  function One(q: Query, t: Task): nat {
    if Hit(q, t) then 1 else 0
  }

  function Count(q: Query, tasks: seq<Task>): nat {
    if tasks == [] then 0 else Count(q, tasks[..|tasks| - 1]) + One(q, tasks[|tasks| - 1])
  }

  ghost predicate CountedClient(cl: Client, c: nat, tasks: seq<Task>) {
    && (forall k | 0 <= k < |cl.files| :: cl.files[k].inFlight == Count(UsesFile(c, k), tasks))
    && (forall b | 0 <= b < |cl.buffers| :: cl.buffers[b].inFlight == Count(UsesBuffer(c, b), tasks))
    && cl.outstanding == Count(OfClient(c), tasks)
    && cl.outstandingCredit == Count(CreditOf(c), tasks)
  }

  /** Every counter is the number of active tasks it stands for. */
  ghost predicate Counted(s: State) {
    && (forall c | 0 <= c < |s.clients| :: CountedClient(s.clients[c], c, s.tasks))
    && s.outstanding == Count(Every, s.tasks)
    && s.outstandingCredit == Count(EveryCredit, s.tasks)
    && s.accepted == s.completions + s.outstanding
  }

  // ---- the kernel ------------------------------------------------------------------

  /** Operations in flight are exactly the active tasks; the file an operation works on
      is the one in the slot that its task names. */
  ghost predicate OpsOk(s: State) {
    && (forall id | id in s.ops ::
          s.ops[id].slot < |s.tasks| && s.tasks[s.ops[id].slot].active && s.tasks[s.ops[id].slot].id == id)
    && (forall i | 0 <= i < |s.tasks| && s.tasks[i].active ::
          && s.tasks[i].id in s.ops
          && s.ops[s.tasks[i].id].slot == i
          && WorksOn(s, s.tasks[i], s.ops[s.tasks[i].id].fd))
  }

  ghost predicate WorksOn(s: State, t: Task, fd: Option<Fd>) {
    if t.kind == KClose then fd == t.closeFd
    else 0 <= t.file && t.client < |s.clients| && t.file < |s.clients[t.client].files| ==>
      fd == s.clients[t.client].files[t.file].fd
  }

  ghost predicate EntryOk(g: Config, table: map<nat, Fd>, c: nat, k: nat, f: FileSlot) {
    if f.registered && f.fd.Some? then
      GlobalFile(g, c, k) in table && table[GlobalFile(g, c, k)] == f.fd.value
    else GlobalFile(g, c, k) !in table
  }

  /** The fixed-file table mirrors the registered slots. */
  ghost predicate TableOk(g: Config, s: State) {
    && (forall c, k | 0 <= c < |s.clients| && 0 <= k < |s.clients[c].files| ::
          EntryOk(g, s.table, c, k, s.clients[c].files[k]))
    && (forall n | n in s.table :: n < g.maxClients * g.fileSlots)
  }

  // ---- fd tokens ---------------------------------------------------------------------

  /** The token at a place that holds at most one. */
  function Held(s: State, p: Place): Option<Fd> {
    match p
    case Received(c) => if c < |s.clients| then s.clients[c].received else None
    case InSlot(c, k) =>
      if c < |s.clients| && k < |s.clients[c].files| then s.clients[c].files[k].fd else None
    case CloseOp(i) => if i < |s.tasks| && s.tasks[i].active then s.tasks[i].closeFd else None
    case Closed => None
  }

  /** Whether place `p` of state `s` holds token `fd`. */
  ghost predicate Holds(s: State, p: Place, fd: Fd) {
    if p.Closed? then fd in s.closed else Held(s, p) == Some(fd)
  }

  /** Every token issued so far is where the ledger says and nowhere else, and nothing
      was closed twice. */
  ghost predicate LedgerOk(s: State) {
    && (forall fd: Fd :: fd in s.ledger <==> fd < s.issued)
    && (forall p: Place, fd: Fd :: Holds(s, p, fd) <==> fd in s.ledger && s.ledger[fd] == p)
    && (forall m, n | 0 <= m < n < |s.closed| :: s.closed[m] != s.closed[n])
  }

  // ---- what a connection has been sent -----------------------------------------------

  /** Whether the handshake is over, the last task id acknowledged on this connection, the ids
      not completed yet, and the payload bytes still owed to the last completion record. */
  datatype Session = Session(submit: bool, last: nat, pending: set<nat>, due: nat)

  /** One record in sequence; None if the protocol forbids it there. */
  function Observe(x: Session, r: Record): Option<Session> {
    match r
    case HandshakeResult(accepted) => if x.submit then None else Some(x.(submit := accepted))
    case Payload(n) => if n == x.due && n != 0 then Some(x.(due := 0)) else None
    case SubmitResult(id, res) =>
      if x.due != 0 || !x.submit then None
      else if id == 0 then (if res < 0 then Some(x) else None)
      else if id <= x.last || res != 0 then None
      else Some(x.(last := id, pending := x.pending + {id}))
    case Completion(id, kind, res, n) =>
      if x.due != 0 || id !in x.pending || !CompletionValid(id, kind, res, n) then None
      else Some(x.(pending := x.pending - {id}, due := n))
    case _ => if x.due != 0 || !x.submit then None else Some(x)
  }

  function Replay(log: seq<Record>): Option<Session> {
    if log == [] then Some(Session(false, 0, {}, 0))
    else
      match Replay(log[..|log| - 1])
      case None => None
      case Some(x) => Observe(x, log[|log| - 1])
  }

  ghost predicate SessionOk(s: State, c: nat)
    requires c < |s.logs|
  {
    match Replay(s.logs[c])
    case None => false
    case Some(x) =>
      && x.due == 0 && c < |s.clients| && x.submit == s.clients[c].submit
      && x.last < s.nextTaskId
      && (forall id | id in x.pending ::
            id in s.ops && s.ops[id].slot < |s.tasks| && s.tasks[s.ops[id].slot].client == c)
      && (forall i | 0 <= i < |s.tasks| && s.tasks[i].active && s.tasks[i].client == c ::
            s.tasks[i].id in x.pending)
  }

  ghost predicate SessionsOk(s: State) {
    && |s.logs| == |s.clients|
    && forall c | 0 <= c < |s.clients| && s.clients[c].open :: SessionOk(s, c)
  }

  // ---- all together --------------------------------------------------------------------

  ghost predicate Inv(g: Config, s: State) {
    && Shape(g, s)
    && ClientsOk(g, s)
    && TasksOk(g, s)
    && s.nextTaskId <= TASK_ID_RESERVED
    && s.nextTaskId > 0
    && Counted(s)
    && OpsOk(s)
    && TableOk(g, s)
    && LedgerOk(s)
    && SessionsOk(s)
  }
}
