/** What a completion does, in terms of the states before and after it: what the client is told,
    what becomes of a new file, and what is left of the slots. */
module DaemonEffects {
  import opened Protocol
  import opened DaemonState
  import opened DaemonSteps
  import opened DaemonInvariant
  import opened DaemonCompletion
  import opened CompletionOrder

  /** A completion of task `id` that the kernel may report in state `s`. */
  ghost predicate Completes(g: Config, s: State, id: nat, q: Cqe) {
    && Inv(g, s) && id in s.ops && s.ops[id].slot < |s.tasks|
    && s.tasks[s.ops[id].slot].client < |s.clients|
    && KernelMayAnswer(s.tasks[s.ops[id].slot], q)
  }

  function TaskOf(s: State, id: nat): Task
    requires id in s.ops && s.ops[id].slot < |s.tasks|
  {
    s.tasks[s.ops[id].slot]
  }

  /** The step in closed form. */
  lemma ReapForm(g: Config, s: State, id: nat, q: Cqe)
    requires Completes(g, s, id, q)
    ensures |s.clients| == |s.logs| && forall i | 0 <= i < |s.tasks| :: s.tasks[i].client < |s.clients|
    ensures Ready(g, s, s.ops[id].slot) && TaskOf(s, id).active && TaskOf(s, id).id == id
    ensures
      var t := TaskOf(s, id);
      var cl := s.clients[t.client];
      && cl.generation == t.generation
      && ReapOne(g, s, id, q) ==
         if (cl.open && !q.fits) || (Drains(cl, t) && !q.releases) then Stopped
         else Running(Completed(g, s, s.ops[id].slot, q))
  {
    hide LedgerOk, TableOk, SessionsOk, SessionOk, Counted, ClientsOk, Completed, Drains;
    ReapFinds(g, s, id);
    var i := s.ops[id].slot;
    Around(g, s, i);
    hide Inv, OpsOk, TasksOk;
    var cl := s.clients[s.tasks[i].client];
    SameGeneration(g, cl, s.tasks[i].client, s.tasks[i]);
    if !(cl.open && !q.fits) { StepIsClosedForm(g, s, i, q); }
  }

  /** The loop goes on unless a live client's output is full, or the last task on a file of a
      client that is gone cannot be taken out of the table. */
  lemma CompletionRuns(g: Config, s: State, id: nat, q: Cqe)
    requires Completes(g, s, id, q)
    ensures |s.clients| == |s.logs| && forall i | 0 <= i < |s.tasks| :: s.tasks[i].client < |s.clients|
    ensures
      var t := TaskOf(s, id);
      var cl := s.clients[t.client];
      && (t.file >= 0 ==> t.file < |cl.files|)
      && (ReapOne(g, s, id, q).Running? <==>
            && (cl.open ==> q.fits)
            && (!cl.open && t.file >= 0 && t.kind != KClose && cl.files[t.file].inFlight == 1 ==> q.releases))
  {
    hide Inv, Completed, ReapOne;
    ReapForm(g, s, id, q);
    DrainsIff(g, s, s.ops[id].slot);
    hide Ready;
  }

  lemma DrainsIff(g: Config, s: State, i: nat)
    requires Ready(g, s, i)
    ensures
      var t := s.tasks[i];
      var cl := s.clients[t.client];
      && (t.file >= 0 ==> t.file < |cl.files|)
      && (Drains(cl, t) <==> !cl.open && t.file >= 0 && t.kind != KClose && cl.files[t.file].inFlight == 1)
  {
    var t := s.tasks[i];
    var cl := s.clients[t.client];
    if t.file >= 0 { assert FileOk(cl.open, cl.files[t.file]); }
  }

  /** A completion record and the payload it announces. */
  function Told(id: nat, kind: Kind, res: int, n: nat): seq<Record> {
    [Completion(id, kind, res, n)] + if n != 0 then [Payload(n)] else []
  }

  /** A live client is told the kernel's result as it is, with as many bytes as were read; a
      client that is gone is told nothing; nobody else is told anything. */
  lemma CompletionTold(g: Config, s: State, id: nat, q: Cqe)
    requires Completes(g, s, id, q) && TaskOf(s, id).kind != KAccept && TaskOf(s, id).kind != KOpenat
    ensures |s.clients| == |s.logs| && forall i | 0 <= i < |s.tasks| :: s.tasks[i].client < |s.clients|
    ensures
      var r := ReapOne(g, s, id, q);
      var t := TaskOf(s, id);
      var n := if t.kind in {KSockRead, KSockReadFixed, KFileRead} && q.res > 0 then q.res else 0;
      r.Running? ==>
        r.state.logs == if s.clients[t.client].open then s.logs[t.client := s.logs[t.client] + Told(id, t.kind, q.res, n)]
                        else s.logs
  {
    hide Inv, ReapOne, Report, Settling, KernelMayAnswer;
    var t := TaskOf(s, id);
    LogsAfter(g, s, id, q);
    ReportPlain(g, s.clients[t.client], t.client, t, q);
  }

  lemma LogsAfter(g: Config, s: State, id: nat, q: Cqe)
    requires Completes(g, s, id, q)
    ensures |s.clients| == |s.logs| && forall i | 0 <= i < |s.tasks| :: s.tasks[i].client < |s.clients|
    ensures
      var r := ReapOne(g, s, id, q);
      var t := TaskOf(s, id);
      var c, cl := t.client, s.clients[t.client];
      && Settling(g, cl, c, t) && t.id == id
      && (r.Running? ==> r.state.logs == if cl.open then s.logs[c := s.logs[c] + Report(cl, t, q)] else s.logs)
  {
    hide Inv, Completed, ReapOne, Report, Settling, KernelMayAnswer, Drains;
    ReapForm(g, s, id, q);
    CompletedLogs(g, s, s.ops[id].slot, q);
    var t := TaskOf(s, id);
    assert s.logs[t.client := s.logs[t.client]] == s.logs;
  }

  lemma CompletedLogs(g: Config, s: State, i: nat, q: Cqe)
    requires i < |s.tasks| && s.tasks[i].client < |s.clients| == |s.logs|
    ensures
      var t := s.tasks[i];
      var cl := s.clients[t.client];
      Completed(g, s, i, q).logs ==
        s.logs[t.client := if cl.open && cl.generation == t.generation then s.logs[t.client] + Report(cl, t, q)
                           else s.logs[t.client]]
  {
    hide Report, FinalFiles, FinalBuffers, FinalFds, ProductOf;
  }

  lemma ReportPlain(g: Config, cl: Client, c: nat, t: Task, q: Cqe)
    requires Settling(g, cl, c, t) && KernelMayAnswer(t, q) && t.kind != KAccept && t.kind != KOpenat
    ensures
      var n := if t.kind in {KSockRead, KSockReadFixed, KFileRead} && q.res > 0 then q.res else 0;
      Report(cl, t, q) == Told(t.id, t.kind, q.res, n)
  {
    hide ClientOk;
  }

  // ---- new files -----------------------------------------------------------------------------

  /** The new file can be kept: the client is there, the table took it, its id can be told as a
      result, and an accepted peer's address fits the room asked for. */
  predicate Keepable(cl: Client, t: Task, q: Cqe) {
    && cl.open && q.update == 0 && t.resultId <= INT32_MAX
    && (t.kind == KAccept ==> q.addressLength <= t.length)
  }

  /** ACCEPT and OPENAT. A file that can be kept is registered in the slot reserved for it,
      and the client is told its id and gets the peer's address. Any other is closed, the
      slot is free again, and the client, if still there, is told why. If the operation
      failed there is no file, and the client is told the error. */
  lemma ProductPlaced(g: Config, s: State, id: nat, q: Cqe)
    requires Completes(g, s, id, q) && TaskOf(s, id).kind in {KAccept, KOpenat} && ReapOne(g, s, id, q).Running?
    ensures
      var s' := ReapOne(g, s, id, q).state;
      var t := TaskOf(s, id);
      var c, cl := t.client, s.clients[t.client];
      && |s'.clients| == |s.clients| && 0 <= t.result < |s'.clients[c].files|
      && var f, n := s'.clients[c].files[t.result], GlobalFile(g, c, t.result);
         && (f.registered <==> q.res >= 0 && Keepable(cl, t, q))
         && (f.registered ==>
               && f == FileSlot(t.resultId, Some(s.issued), 0, true, false)
               && n in s'.table && s'.table[n] == s.issued && s'.closed == s.closed)
         && (!f.registered ==> f == FREE_FILE && n !in s'.table)
         && (q.res >= 0 && !f.registered ==> s.issued in s'.closed)
         && s'.issued == (if q.res >= 0 then s.issued + 1 else s.issued)
  {
    hide Inv, ReapOne, Completed, KernelMayAnswer;
    ReapForm(g, s, id, q);
    var i := s.ops[id].slot;
    Outside(g, s, i);
    CompletedParts(g, s, i, q);
    var t := TaskOf(s, id);
    ProductFate(g, s.clients[t.client], t.client, t, q);
    FateOfFile(g, s, i, ProductOf(s.clients[t.client], t, q));
  }

  /** The slot reserved for a result is not in the table yet. */
  ghost predicate ReservedOutside(g: Config, s: State, i: nat)
    requires i < |s.tasks|
  {
    s.tasks[i].result >= 0 ==> GlobalFile(g, s.tasks[i].client, s.tasks[i].result) !in s.table
  }

  lemma Outside(g: Config, s: State, i: nat)
    requires Inv(g, s) && i < |s.tasks| && s.tasks[i].active
    ensures ReservedOutside(g, s, i)
  {
    hide LedgerOk, SessionsOk, Counted, OpsOk, ClientsOk;
    var t := s.tasks[i];
    if t.result >= 0 {
      assert EntryOk(g, s.table, t.client, t.result, s.clients[t.client].files[t.result]);
    }
  }

  lemma CompletedParts(g: Config, s: State, i: nat, q: Cqe)
    requires i < |s.tasks| && s.tasks[i].client < |s.clients| == |s.logs|
    ensures
      var t := s.tasks[i];
      var cl := s.clients[t.client];
      var p := ProductOf(cl, t, q);
      var s', fds := Completed(g, s, i, q), FinalFds(g, s, cl, t, p);
      && |s'.clients| == |s.clients|
      && s'.clients[t.client].files == FinalFiles(s, cl, t, p)
      && s'.clients[t.client].buffers == FinalBuffers(cl, t, q)
      && s'.table == fds.table && s'.closed == fds.closed && s'.issued == fds.issued
  {
    hide Report, FinalFiles, FinalBuffers, FinalFds, ProductOf, LogAfter;
  }

  /** When a new file is installed, and when there is none. */
  lemma ProductFate(g: Config, cl: Client, c: nat, t: Task, q: Cqe)
    requires Settling(g, cl, c, t) && t.kind in {KAccept, KOpenat}
    ensures ProductOf(cl, t, q).Installed? <==> q.res >= 0 && Keepable(cl, t, q)
    ensures ProductOf(cl, t, q).NoFile? <==> q.res < 0
  {
    hide ClientOk;
  }

  lemma FateOfFile(g: Config, s: State, i: nat, p: Product)
    requires Ready(g, s, i) && ReservedOutside(g, s, i) && s.tasks[i].kind in {KAccept, KOpenat}
    requires p.Installed? ==> s.clients[s.tasks[i].client].open
    ensures
      var t := s.tasks[i];
      var c, cl := t.client, s.clients[t.client];
      var files, fds := FinalFiles(s, cl, t, p), FinalFds(g, s, cl, t, p);
      && 0 <= t.result < |files|
      && var f, n := files[t.result], GlobalFile(g, c, t.result);
         && f == (if p.Installed? then FileSlot(t.resultId, Some(s.issued), 0, true, false) else FREE_FILE)
         && (p.Installed? ==> n in fds.table && fds.table[n] == s.issued && fds.closed == s.closed)
         && (!p.Installed? ==> n !in fds.table)
         && (p.Discarded? ==> s.issued in fds.closed)
         && fds.issued == (if p.NoFile? then s.issued else s.issued + 1)
  {
    var t := s.tasks[i];
    DrainsIff(g, s, i);
    if t.file >= 0 {
      SettledFile(g, s, s.clients[t.client], t, p);
      IndicesDiffer(g, t.client, t.file, t.result);
    }
    hide ClientOk;
  }

  lemma IndicesDiffer(g: Config, c: nat, k: int, l: int)
    requires k >= 0 && l >= 0 && k != l
    ensures GlobalFile(g, c, k) != GlobalFile(g, c, l)
  {
  }

  lemma ProductTold(g: Config, s: State, id: nat, q: Cqe)
    requires Completes(g, s, id, q) && TaskOf(s, id).kind in {KAccept, KOpenat} && ReapOne(g, s, id, q).Running?
    ensures
      var s' := ReapOne(g, s, id, q).state;
      var t := TaskOf(s, id);
      var cl := s.clients[t.client];
      var res :=
        if q.res < 0 then q.res
        else if t.kind == KAccept && q.addressLength > t.length then -EPROTO
        else if t.resultId > INT32_MAX then -EPROTO
        else if q.update != 0 then -(q.update as int)
        else t.resultId;
      var n := if t.kind == KAccept && q.res >= 0 && Keepable(cl, t, q) then q.addressLength else 0;
      && t.client < |s.logs|
      && s'.logs == if cl.open then s.logs[t.client := s.logs[t.client] + Told(id, t.kind, res, n)] else s.logs
  {
    hide Inv, ReapOne, Report, Settling, KernelMayAnswer;
    var t := TaskOf(s, id);
    LogsAfter(g, s, id, q);
    if s.clients[t.client].open { ReportProduct(g, s.clients[t.client], t.client, t, q); }
  }

  lemma ReportProduct(g: Config, cl: Client, c: nat, t: Task, q: Cqe)
    requires Settling(g, cl, c, t) && t.kind in {KAccept, KOpenat} && cl.open
    ensures
      var res :=
        if q.res < 0 then q.res
        else if t.kind == KAccept && q.addressLength > t.length then -EPROTO
        else if t.resultId > INT32_MAX then -EPROTO
        else if q.update != 0 then -(q.update as int)
        else t.resultId;
      var n := if t.kind == KAccept && q.res >= 0 && Keepable(cl, t, q) then q.addressLength else 0;
      Report(cl, t, q) == Told(t.id, t.kind, res, n)
  {
    hide ClientOk;
  }

  // ---- slots and counters -------------------------------------------------------------------------

  predicate OnePinLess(f: FileSlot, f': FileSlot) {
    f'.inFlight + 1 == f.inFlight && f' == f.(inFlight := f'.inFlight)
  }

  predicate BufferUsed(b: BufferSlot, b': BufferSlot, valid: int) {
    b'.inFlight + 1 == b.inFlight && b'.validLength == valid &&
    b' == b.(inFlight := b'.inFlight, validLength := b'.validLength)
  }

  /** The other slots. The task's own file loses one pin; it is free afterwards if the task was
      a CLOSE, or if it was the last on a file of a client that is gone. The buffer loses one
      pin and is free under the same condition; after a completed fixed read as many of its
      bytes are valid as were read. All other slots stay. */
  lemma SlotsSettled(g: Config, s: State, id: nat, q: Cqe)
    requires Completes(g, s, id, q) && ReapOne(g, s, id, q).Running?
    ensures
      var s' := ReapOne(g, s, id, q).state;
      var t := TaskOf(s, id);
      var cl := s.clients[t.client];
      && |s'.clients| == |s.clients|
      && var cl' := s'.clients[t.client];
         && |cl'.files| == |cl.files| && |cl'.buffers| == |cl.buffers|
         && (forall k | 0 <= k < |cl.files| && k != t.result ::
               if k != t.file then cl'.files[k] == cl.files[k]
               else if t.kind == KClose || (!cl.open && cl.files[k].inFlight == 1) then cl'.files[k] == FREE_FILE
               else OnePinLess(cl.files[k], cl'.files[k]))
         && (forall b | 0 <= b < |cl.buffers| ::
               if b != t.buffer then cl'.buffers[b] == cl.buffers[b]
               else if !cl.open && cl.buffers[b].inFlight == 1 then cl'.buffers[b] == FREE_BUFFER
               else BufferUsed(cl.buffers[b], cl'.buffers[b],
                               if t.kind == KSockReadFixed && q.res >= 0 then q.res else cl.buffers[b].validLength))
  {
    hide Inv, ReapOne, Completed, KernelMayAnswer, ProductOf;
    ReapForm(g, s, id, q);
    var i := s.ops[id].slot;
    CompletedParts(g, s, i, q);
    var t := TaskOf(s, id);
    var cl := s.clients[t.client];
    FilesSettled(g, s, i, ProductOf(cl, t, q));
    BuffersSettled(g, cl, t.client, t, q);
  }

  lemma FilesSettled(g: Config, s: State, i: nat, p: Product)
    requires Ready(g, s, i)
    ensures
      var t := s.tasks[i];
      var cl := s.clients[t.client];
      var files := FinalFiles(s, cl, t, p);
      && |files| == |cl.files|
      && forall k | 0 <= k < |cl.files| && k != t.result ::
           if k != t.file then files[k] == cl.files[k]
           else if t.kind == KClose || (!cl.open && cl.files[k].inFlight == 1) then files[k] == FREE_FILE
           else OnePinLess(cl.files[k], files[k])
  {
    hide ClientOk;
    DrainsIff(g, s, i);
    var t := s.tasks[i];
    if t.file >= 0 { SettledFile(g, s, s.clients[t.client], t, p); }
  }

  lemma BuffersSettled(g: Config, cl: Client, c: nat, t: Task, q: Cqe)
    requires Settling(g, cl, c, t)
    ensures
      var buffers := FinalBuffers(cl, t, q);
      && |buffers| == |cl.buffers|
      && forall b | 0 <= b < |cl.buffers| ::
           if b != t.buffer then buffers[b] == cl.buffers[b]
           else if !cl.open && cl.buffers[b].inFlight == 1 then buffers[b] == FREE_BUFFER
           else BufferUsed(cl.buffers[b], buffers[b],
                           if t.kind == KSockReadFixed && q.res >= 0 then q.res else cl.buffers[b].validLength)
  {
    if t.buffer >= 0 {
      assert BufferOk(g, cl.open, cl.buffers[t.buffer]);
      assert One(UsesBuffer(c, t.buffer), t) == 1;
    }
  }

  /** The task is over and counted as completed; nothing else changes but its client's slots,
      the files and the log. The fd of a CLOSE, and that of a file that is no longer needed,
      are closed and out of the table. */
  lemma TaskOver(g: Config, s: State, id: nat, q: Cqe)
    requires Completes(g, s, id, q) && ReapOne(g, s, id, q).Running?
    ensures
      var s' := ReapOne(g, s, id, q).state;
      var t, i := TaskOf(s, id), s.ops[id].slot;
      var cl := s.clients[t.client];
      && s'.tasks == s.tasks[i := IDLE_TASK] && s'.ops == s.ops - {id}
      && s'.completions == s.completions + 1 && s'.outstanding == s.outstanding - 1
      && s'.nextTaskId == s.nextTaskId && s'.accepted == s.accepted && s'.rejected == s.rejected
      && t.client < |s'.clients|
      && (t.kind == KClose ==> t.closeFd.Some? && s'.closed == s.closed + [t.closeFd.value])
      && (!cl.open && 0 <= t.file < |cl.files| && t.kind != KClose && cl.files[t.file].inFlight == 1 ==>
            && cl.files[t.file].fd.Some? && cl.files[t.file].fd.value in s'.closed
            && GlobalFile(g, t.client, t.file) !in s'.table)
      && var cl' := s'.clients[t.client];
         && s'.clients == s.clients[t.client := cl.(files := cl'.files, buffers := cl'.buffers,
              outstanding := cl'.outstanding, outstandingCredit := cl'.outstandingCredit)]
         && cl'.outstanding + 1 == cl.outstanding
         && cl'.outstandingCredit + (if t.credit then 1 else 0) == cl.outstandingCredit
  {
    hide Inv, ReapOne, Completed, KernelMayAnswer, ProductOf;
    ReapForm(g, s, id, q);
    var i := s.ops[id].slot;
    CompletedParts(g, s, i, q);
    CompletedRest(g, s, i, q);
    var t := TaskOf(s, id);
    ProductSound(g, s.clients[t.client], t.client, t, q);
    FdsOver(g, s, i, ProductOf(s.clients[t.client], t, q));
    Discounted(g, s.clients[t.client], t.client, t);
  }

  lemma Discounted(g: Config, cl: Client, c: nat, t: Task)
    requires Settling(g, cl, c, t)
    ensures cl.outstanding >= 1 && (t.credit ==> cl.outstandingCredit >= 1)
  {
    assert t.credit ==> One(CreditOf(c), t) == 1;
  }

  lemma CompletedRest(g: Config, s: State, i: nat, q: Cqe)
    requires Ready(g, s, i)
    ensures
      var t := s.tasks[i];
      var cl := s.clients[t.client];
      var s' := Completed(g, s, i, q);
      && t.client < |s'.clients|
      && s'.tasks == s.tasks[i := IDLE_TASK] && s'.ops == s.ops - {t.id}
      && s'.completions == s.completions + 1 && s'.outstanding == s.outstanding - 1
      && s'.nextTaskId == s.nextTaskId && s'.accepted == s.accepted && s'.rejected == s.rejected
      && s'.clients == s.clients[t.client := cl.(
           files := s'.clients[t.client].files, buffers := s'.clients[t.client].buffers,
           outstanding := Less(cl.outstanding), outstandingCredit := if t.credit then Less(cl.outstandingCredit) else cl.outstandingCredit)]
  {
    hide Report, FinalFiles, FinalBuffers, FinalFds, ProductOf, LogAfter, Settling;
  }

  lemma FdsOver(g: Config, s: State, i: nat, p: Product)
    requires Ready(g, s, i) && (p.Installed? || p.Discarded? ==> MakesFile(s.tasks[i].kind))
    ensures
      var t := s.tasks[i];
      var cl := s.clients[t.client];
      var fds := FinalFds(g, s, cl, t, p);
      && (t.kind == KClose ==> t.closeFd.Some? && fds.closed == s.closed + [t.closeFd.value])
      && (Drains(cl, t) ==>
            && cl.files[t.file].fd.Some? && cl.files[t.file].fd.value in fds.closed
            && GlobalFile(g, t.client, t.file) !in fds.table)
      && (Drains(cl, t) <==> !cl.open && t.file >= 0 && t.kind != KClose && cl.files[t.file].inFlight == 1)
  {
    hide ClientOk;
    DrainsIff(g, s, i);
    var t := s.tasks[i];
    if t.file >= 0 { SettledFile(g, s, s.clients[t.client], t, p); }
  }
}
