/** Completion keeps the invariant, whatever became of the connection meanwhile. */
module DaemonCompletion {
  import opened Protocol
  import opened DaemonState
  import opened DaemonSteps
  import opened DaemonInvariant
  import opened DaemonFrame
  import opened DaemonSafety

  /** The client side of an active task: the part of the invariant that completion needs. */
  ghost predicate Settling(g: Config, cl: Client, c: nat, t: Task) {
    && |cl.files| == g.fileSlots && |cl.buffers| == g.bufferSlots && ConfigOk(g)
    && ClientOk(g, cl) && TaskOk(g, cl, t) && t.active && t.client == c
    && (forall k | 0 <= k < |cl.files| :: One(UsesFile(c, k), t) <= cl.files[k].inFlight)
    && (forall b | 0 <= b < |cl.buffers| :: One(UsesBuffer(c, b), t) <= cl.buffers[b].inFlight)
    && 1 <= cl.outstanding && One(CreditOf(c), t) <= cl.outstandingCredit
  }

  lemma {:induction false} HitCounts(q: Query, tasks: seq<Task>, i: nat)
    requires i < |tasks|
    ensures One(q, tasks[i]) <= Count(q, tasks)
  {
    var n := |tasks| - 1;
    if i < n {
      HitCounts(q, tasks[..n], i);
      assert tasks[..n][i] == tasks[i];
    }
  }

  lemma TaskSettling(g: Config, s: State, i: nat)
    requires Shape(g, s) && ClientsOk(g, s) && TasksOk(g, s) && Counted(s)
    requires i < |s.tasks| && s.tasks[i].active
    ensures Settling(g, s.clients[s.tasks[i].client], s.tasks[i].client, s.tasks[i])
  {
    var c := s.tasks[i].client;
    assert CountedClient(s.clients[c], c, s.tasks);
    forall q: Query ensures One(q, s.tasks[i]) <= Count(q, s.tasks) { HitCounts(q, s.tasks, i); }
    assert ClientOk(g, s.clients[c]);
    assert One(OfClient(c), s.tasks[i]) == 1;
  }

  /** The parts of the invariant around active task `i`, one by one. */
  lemma Around(g: Config, s: State, i: nat)
    requires Inv(g, s) && i < |s.tasks| && s.tasks[i].active
    ensures
      var t := s.tasks[i];
      && Shape(g, s) && t.client < |s.clients| && 0 < t.id < TASK_ID_RESERVED
      && Settling(g, s.clients[t.client], t.client, t)
      && OpsOk(s) && TableOk(g, s) && LedgerOk(s)
      && (s.clients[t.client].open ==> SessionOk(s, t.client))
      && s.accepted == s.completions + s.outstanding
  {
    hide OpsOk, TableOk, LedgerOk, SessionOk, Settling;
    TaskSettling(g, s, i);
  }

  /** A new file is installed only in a slot that was reserved for it. */
  lemma ProductSound(g: Config, cl: Client, c: nat, t: Task, q: Cqe)
    requires Settling(g, cl, c, t)
    ensures ProductOf(cl, t, q).Installed? ==>
              cl.open && MakesFile(t.kind) && 0 <= t.result < |cl.files|
              && ReservedFile(cl.files[t.result]) && 0 < t.resultId <= INT32_MAX
              && (t.kind == KAccept ==> q.addressLength <= t.length)
    ensures ProductOf(cl, t, q).NoFile? || MakesFile(t.kind)
  {
  }

  lemma SettledFilesOk(g: Config, s: State, cl: Client, c: nat, t: Task, p: Product)
    requires Settling(g, cl, c, t) && (p.Installed? ==> cl.open && MakesFile(t.kind))
    ensures
      var files := SettledFiles(s, t, p, cl.files);
      && (forall k | 0 <= k < |cl.files| :: FileOk(cl.open, files[k]))
      && (forall k | 0 <= k < |cl.files| :: files[k].id == cl.files[k].id || files[k].id == 0)
      && (forall k | 0 <= k < |cl.files| ::
            files[k].inFlight + One(UsesFile(c, k), t) == cl.files[k].inFlight)
      && (forall k | 0 <= k < |cl.files| ::
            cl.files[k].inFlight == One(UsesFile(c, k), t) || SameFile(cl.files[k], files[k]))
  {
    assert t.file >= 0 ==> FileOk(cl.open, cl.files[t.file]);
    assert forall k | 0 <= k < |cl.files| :: FileOk(cl.open, cl.files[k]);
  }

  lemma SettledBuffersOk(g: Config, cl: Client, c: nat, t: Task, q: Cqe)
    requires Settling(g, cl, c, t) && KernelMayAnswer(t, q)
    ensures
      var buffers := SettledBuffers(t, q, cl.buffers);
      && (forall b | 0 <= b < |cl.buffers| :: BufferOk(g, cl.open, buffers[b]))
      && (forall b | 0 <= b < |cl.buffers| :: SameBuffer(cl.buffers[b], buffers[b]))
      && (forall b | 0 <= b < |cl.buffers| ::
            buffers[b].inFlight + One(UsesBuffer(c, b), t) == cl.buffers[b].inFlight)
  {
    assert forall b | 0 <= b < |cl.buffers| :: BufferOk(g, cl.open, cl.buffers[b]);
  }

  lemma SettledClientOk(g: Config, s: State, cl: Client, c: nat, t: Task, q: Cqe)
    requires Settling(g, cl, c, t) && KernelMayAnswer(t, q)
    ensures
      var cl' := SettledClient(s, t, q, ProductOf(cl, t, q), cl);
      ClientOk(g, cl') && KeepsOthers(cl, cl', c, t) && CountersFollow(cl, cl', c, t, IDLE_TASK)
  {
    hide SettledFiles, SettledBuffers, ProductOf, TaskOk, IdsDistinct, FileOk, BufferOk;
    var p := ProductOf(cl, t, q);
    var cl' := SettledClient(s, t, q, p, cl);
    ProductSound(g, cl, c, t, q);
    SettledFilesOk(g, s, cl, c, t, p);
    SettledBuffersOk(g, cl, c, t, q);
    FewerIds(cl, cl');
  }

  lemma FewerIds(cl: Client, cl': Client)
    requires IdsDistinct(cl) && |cl'.files| == |cl.files| && |cl'.buffers| == |cl.buffers|
    requires forall k | 0 <= k < |cl.files| :: cl'.files[k].id == cl.files[k].id || cl'.files[k].id == 0
    requires forall b | 0 <= b < |cl.buffers| :: SameBuffer(cl.buffers[b], cl'.buffers[b])
    ensures IdsDistinct(cl')
  {
    assert forall n | 0 <= n < |cl.files| + |cl.buffers| :: IdAt(cl', n) == IdAt(cl, n) || IdAt(cl', n) == 0;
  }

  /** The record a live connection gets is one its library accepts, and its payload, if
      any, follows it. */
  lemma ReportValid(g: Config, cl: Client, c: nat, t: Task, q: Cqe)
    requires Settling(g, cl, c, t) && KernelMayAnswer(t, q) && 0 < t.id < TASK_ID_RESERVED && cl.open
    ensures
      var p := ProductOf(cl, t, q);
      var n := ReportedPayload(t, q, p);
      && CompletionValid(t.id, t.kind, ReportedResult(t, q, p), n)
      && Report(cl, t, q) == [Completion(t.id, t.kind, ReportedResult(t, q, p), n)]
                             + (if n != 0 then [Payload(n)] else [])
  {
    ProductSound(g, cl, c, t, q);
  }

  // ---- fds -------------------------------------------------------------------------------

  /** Which file the completion puts where: the slot that it fills, or any slot at all. */
  function ResultSlot(t: Task): nat {
    if t.result >= 0 then t.result else 0
  }

  /** Settling touches the task's slot and its client, and nothing else but fds. */
  lemma SettleTouches(g: Config, s: State, i: nat, q: Cqe)
    requires Shape(g, s) && i < |s.tasks| && s.tasks[i].active
    ensures
      var t := s.tasks[i];
      var s' := Settle(g, s, i, q);
      var p := ProductOf(s.clients[t.client], t, q);
      && Touches(g, s, s', t.client, i)
      && s'.clients[t.client] == SettledClient(s, t, q, p, s.clients[t.client])
      && s'.tasks[i] == IDLE_TASK
      && s'.nextTaskId == s.nextTaskId
      && s'.outstanding == s.outstanding - 1
      && s'.outstandingCredit == s.outstandingCredit - (if t.credit then 1 else 0)
      && s'.accepted == s.accepted && s'.completions == s.completions + 1
      && s'.ops == s.ops - {t.id}
      && s'.logs == s.logs[t.client := s'.logs[t.client]]
      && (s.clients[t.client].open && s.clients[t.client].generation == t.generation ==>
            s'.logs[t.client] == s.logs[t.client] + Report(s.clients[t.client], t, q))
  {
    hide ProductOf, Report, SettledFiles, SettledBuffers;
  }

  lemma SettleMovesFds(g: Config, s: State, i: nat, q: Cqe)
    requires Shape(g, s) && i < |s.tasks|
    ensures
      var t := s.tasks[i];
      var s' := Settle(g, s, i, q);
      var s1 := SettledFds(g, s, t, ProductOf(s.clients[t.client], t, q));
      s'.table == s1.table && s'.ledger == s1.ledger && s'.closed == s1.closed && s'.issued == s1.issued
  {
    hide ProductOf, Report, SettledFds, SettledClient;
  }

  lemma SettledTableOk(g: Config, s: State, i: nat, q: Cqe)
    requires Inv(g, s) && i < |s.tasks| && s.tasks[i].active
    ensures TableOk(g, Settle(g, s, i, q))
  {
    hide Inv, Settle, ProductOf, SettledFiles, SettledBuffers, ClientOk;
    Around(g, s, i);
    var t := s.tasks[i];
    var c := t.client;
    var cl := s.clients[c];
    var s' := Settle(g, s, i, q);
    var p := ProductOf(cl, t, q);
    var k := ResultSlot(t);
    SettleTouches(g, s, i, q);
    SettleMovesFds(g, s, i, q);
    ProductSound(g, cl, c, t, q);
    assert EntryOk(g, s.table, c, k, cl.files[k]);
    SettledRegistration(g, s, cl, c, t, p);
    TableFrame(g, s, s', c, i, k);
  }

  /** Settling changes no slot's fd or registration but the result slot's. */
  lemma SettledRegistration(g: Config, s: State, cl: Client, c: nat, t: Task, p: Product)
    requires Settling(g, cl, c, t) && (p.Installed? ==> MakesFile(t.kind))
    ensures
      var files := SettledFiles(s, t, p, cl.files);
      && (forall l | 0 <= l < |cl.files| && !(p.Installed? && l == t.result) ::
            files[l].fd == cl.files[l].fd && files[l].registered == cl.files[l].registered)
      && (p.Installed? ==>
            files[t.result].registered && files[t.result].fd == Some(s.issued) && cl.files[t.result].fd.None?)
  {
    assert t.file >= 0 ==> FileOk(cl.open, cl.files[t.file]);
  }

  /** The places of the tokens after settling: a CLOSE gives up its own, a new file is in
      its slot, and everything else is where it was. */
  lemma SettledPlaces(g: Config, s: State, i: nat, q: Cqe)
    requires Inv(g, s) && i < |s.tasks| && s.tasks[i].active
    ensures
      var t := s.tasks[i];
      var s' := Settle(g, s, i, q);
      var p := ProductOf(s.clients[t.client], t, q);
      var slot := InSlot(t.client, ResultSlot(t));
      && (forall place: Place | place != CloseOp(i) && place != slot :: Held(s', place) == Held(s, place))
      && Held(s, CloseOp(i)) == t.closeFd && Held(s', CloseOp(i)).None?
      && (p.Installed? ==> Held(s, slot).None? && Held(s', slot) == Some(s.issued))
      && (!p.Installed? ==> Held(s', slot) == Held(s, slot))
  {
    hide Inv, Settle, ProductOf, SettledFiles, SettledBuffers, ClientOk, LedgerOk, OpsOk, TableOk, SessionOk;
    Around(g, s, i);
    var t := s.tasks[i];
    var cl := s.clients[t.client];
    SettleTouches(g, s, i, q);
    ProductSound(g, cl, t.client, t, q);
    SettledRegistration(g, s, cl, t.client, t, ProductOf(cl, t, q));
  }

  lemma SettledLedgerOk(g: Config, s: State, i: nat, q: Cqe)
    requires Inv(g, s) && i < |s.tasks| && s.tasks[i].active
    ensures LedgerOk(Settle(g, s, i, q))
  {
    hide Inv, Settle, ProductOf, Settling, LedgerOk, OpsOk, TableOk, SessionOk, Held;
    Around(g, s, i);
    var t := s.tasks[i];
    var s' := Settle(g, s, i, q);
    var p := ProductOf(s.clients[t.client], t, q);
    SettleMovesFds(g, s, i, q);
    SettledPlaces(g, s, i, q);
    KindFacts(g, s.clients[t.client], t.client, t, q);
    FreshToken(s);
    if t.kind == KClose {
      Located(s, CloseOp(i), t.closeFd.value);
      LedgerMove(s, s', t.closeFd.value, Closed);
    } else if p.Discarded? {
      LedgerMove(s, s', s.issued, Closed);
    } else if p.Installed? {
      LedgerMove(s, s', s.issued, InSlot(t.client, t.result));
    } else {
      LedgerSame(s, s');
    }
  }

  lemma KindFacts(g: Config, cl: Client, c: nat, t: Task, q: Cqe)
    requires Settling(g, cl, c, t)
    ensures t.closeFd.Some? == (t.kind == KClose)
    ensures ProductOf(cl, t, q).Installed? ==> t.result >= 0
    ensures t.kind == KClose ==> ProductOf(cl, t, q).NoFile?
  {
  }

  // ---- the whole step ------------------------------------------------------------------------

  lemma SettledSessionOk(g: Config, s: State, i: nat, q: Cqe)
    requires Inv(g, s) && i < |s.tasks| && s.tasks[i].active && KernelMayAnswer(s.tasks[i], q)
    requires s.clients[s.tasks[i].client].open
    ensures SessionOk(Settle(g, s, i, q), s.tasks[i].client)
  {
    hide Inv, Settle, Report, ReportedResult, ReportedPayload, ProductOf, ClientOk, LedgerOk, OpsOk, TableOk, SessionOk;
    Around(g, s, i);
    var t := s.tasks[i];
    var c := t.client;
    var cl := s.clients[c];
    var s' := Settle(g, s, i, q);
    var p := ProductOf(cl, t, q);
    var n := ReportedPayload(t, q, p);
    SettleTouches(g, s, i, q);
    ReportValid(g, cl, c, t, q);
    var head := [Completion(t.id, t.kind, ReportedResult(t, q, p), n)];
    var tail := if n != 0 then [Payload(n)] else [];
    assert s.logs[c] + (head + tail) == s.logs[c] + head + tail;
    SessionRetire(g, s, s', c, i, t.kind, ReportedResult(t, q, p), n);
  }

  lemma SettleKeeps(g: Config, s: State, i: nat, q: Cqe)
    requires Inv(g, s) && i < |s.tasks| && s.tasks[i].active && KernelMayAnswer(s.tasks[i], q)
    ensures Inv(g, Settle(g, s, i, q))
  {
    hide LedgerOk, TableOk, OpsOk, SessionsOk, TasksOk, ClientsOk, ClientOk, SessionOk, TaskOk;
    hide Settle, SettledFiles, SettledBuffers, KeepsOthers, Counted, CountersFollow, ProductOf;
    Around(g, s, i);
    var t := s.tasks[i];
    var c := t.client;
    var cl := s.clients[c];
    var s' := Settle(g, s, i, q);
    SettleTouches(g, s, i, q);
    SettledClientOk(g, s, cl, c, t, q);
    SettledTableOk(g, s, i, q);
    SettledLedgerOk(g, s, i, q);
    if cl.open { SettledSessionOk(g, s, i, q); }
    InvFrame(g, s, s', c, i);
  }

  lemma CompleteTaskKeeps(g: Config, s: State, i: nat, q: Cqe)
    requires Inv(g, s) && i < |s.tasks| && s.tasks[i].active && KernelMayAnswer(s.tasks[i], q)
    ensures var r := CompleteTask(g, s, i, q); r.Running? ==> Inv(g, r.state)
  {
    var t := s.tasks[i];
    var c := t.client;
    SettleKeeps(g, s, i, q);
    ReleaseFileAfterKeeps(g, Settle(g, s, i, q), c, t.file, q.releases);
    hide Inv, Settle, ReleaseFileAfter, ReleaseBufferAfter;
    var r := ReleaseFileAfter(g, Settle(g, s, i, q), c, t.file, q.releases);
    if r.Running? { ReleaseBufferAfterKeeps(g, r.state, c, t.buffer); }
  }

  lemma ReleaseFileAfterKeeps(g: Config, s: State, c: nat, k: int, releases: bool)
    requires Inv(g, s) && c < |s.clients|
    ensures var r := ReleaseFileAfter(g, s, c, k, releases); r.Running? ==> Inv(g, r.state)
  {
    hide Inv, TryReleaseFile;
    if 0 <= k < |s.clients[c].files| && s.clients[c].files[k].closing {
      TryReleaseFileKeeps(g, s, c, k, releases);
    }
  }

  lemma ReleaseBufferAfterKeeps(g: Config, s: State, c: nat, b: int)
    requires Inv(g, s) && c < |s.clients|
    ensures Inv(g, ReleaseBufferAfter(s, c, b))
  {
    hide Inv, TryReleaseBuffer;
    if 0 <= b < |s.clients[c].buffers| { TryReleaseBufferKeeps(g, s, c, b); }
  }

  /** The id the kernel reports is always that of an active task, in the slot whose memory
      the operation used: reaping never meets an unknown id. */
  lemma ReapFinds(g: Config, s: State, id: nat)
    requires Inv(g, s) && id in s.ops
    ensures FindTask(s.tasks, id) == s.ops[id].slot < |s.tasks|
    ensures s.tasks[s.ops[id].slot].active && s.tasks[s.ops[id].slot].id == id
  {
    hide LedgerOk, TableOk, SessionsOk, Counted, TasksOk, ClientsOk;
    var i := s.ops[id].slot;
    var j := FindTask(s.tasks, id);
    assert j < |s.tasks| ==> s.ops[s.tasks[j].id].slot == j;
  }

  lemma ReapKeeps(g: Config, s: State, id: nat, q: Cqe)
    requires Inv(g, s) && id in s.ops && KernelMayAnswer(s.tasks[s.ops[id].slot], q)
    ensures var r := ReapOne(g, s, id, q); r.Running? ==> Inv(g, r.state)
  {
    ReapFinds(g, s, id);
    hide Inv, CompleteTask;
    CompleteTaskKeeps(g, s, s.ops[id].slot, q);
  }
}
