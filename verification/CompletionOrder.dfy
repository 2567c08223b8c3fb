/** iouringd_complete_task in the daemon's own order: the new file first, then the record,
    then the three slots one after the other, then the counters. Under the invariant this
    is the completion step. */
module CompletionOrder {
  import opened Protocol
  import opened DaemonState
  import opened DaemonSteps
  import opened DaemonInvariant
  import opened DaemonCompletion

  /** iouringd_prepare_accept_completion, iouringd_prepare_openat_completion; the kernel has
      closed what a CLOSE was given. */
  function Prepare(g: Config, s: State, t: Task, p: Product): State
    requires t.client < |s.clients|
  {
    var s1 := SettledFds(g, s, t, p);
    var cl := s.clients[t.client];
    if p.Installed? && 0 <= t.result < |cl.files| then
      SetClient(s1, t.client, SetFile(cl, t.result, cl.files[t.result].(
        id := t.resultId, fd := Some(s.issued), registered := true, closing := false)))
    else s1
  }

  /** A completed fixed read makes its bytes the valid ones. */
  function ReadBack(s: State, c: nat, t: Task, q: Cqe): State
    requires c < |s.clients|
  {
    var cl := s.clients[c];
    if t.kind == KSockReadFixed && 0 <= t.buffer < |cl.buffers| && q.res >= 0 then
      SetClient(s, c, SetBuffer(cl, t.buffer, cl.buffers[t.buffer].(validLength := q.res)))
    else s
  }

  function LetGoFile(g: Config, s: State, c: nat, k: int, releases: bool): (r: Outcome)
    requires c < |s.clients|
    ensures r.Running? ==> |r.state.clients| == |s.clients| && r.state.tasks == s.tasks
  {
    if 0 <= k < |s.clients[c].files| then
      ReleaseFileAfter(g, SetClient(s, c, SetFile(s.clients[c], k, Unpin(s.clients[c].files[k]))), c, k, releases)
    else Running(s)
  }

  function LetGoResult(g: Config, s: State, c: nat, k: int, releases: bool): (r: Outcome)
    requires c < |s.clients|
    ensures r.Running? ==> |r.state.clients| == |s.clients| && r.state.tasks == s.tasks
  {
    if 0 <= k < |s.clients[c].files| then
      var f := Unpin(s.clients[c].files[k]);
      var s1 := SetClient(s, c, SetFile(s.clients[c], k, f));
      if !f.registered || f.closing then TryReleaseFile(g, s1, c, k, releases) else Running(s1)
    else Running(s)
  }

  function LetGoBuffer(s: State, c: nat, b: int): (r: State)
    requires c < |s.clients|
    ensures |r.clients| == |s.clients| && r.tasks == s.tasks
  {
    if 0 <= b < |s.clients[c].buffers| then
      ReleaseBufferAfter(SetClient(s, c, SetBuffer(s.clients[c], b, UnpinBuffer(s.clients[c].buffers[b]))), c, b)
    else s
  }

  function Discount(s: State, i: nat): State
    requires i < |s.tasks| && s.tasks[i].client < |s.clients|
  {
    var t := s.tasks[i];
    var cl := s.clients[t.client];
    SetClient(s, t.client, cl.(
      outstanding := Less(cl.outstanding),
      outstandingCredit := if t.credit then Less(cl.outstandingCredit) else cl.outstandingCredit)).(
      tasks := s.tasks[i := IDLE_TASK],
      outstanding := s.outstanding - 1,
      outstandingCredit := s.outstandingCredit - (if t.credit then 1 else 0),
      completions := s.completions + 1,
      ops := s.ops - {t.id})
  }

  /** The three slots, one after the other. */
  function LetGo(g: Config, s: State, t: Task, releases: bool): (r: Outcome)
    requires t.client < |s.clients|
    ensures r.Running? ==> |r.state.clients| == |s.clients| && r.state.tasks == s.tasks
  {
    match LetGoFile(g, s, t.client, t.file, releases)
    case Stopped => Stopped
    case Running(s1) =>
      match LetGoResult(g, s1, t.client, t.result, releases)
      case Stopped => Stopped
      case Running(s2) => Running(LetGoBuffer(s2, t.client, t.buffer))
  }

  /** The whole of iouringd_complete_task. */
  function InOrder(g: Config, s: State, i: nat, q: Cqe): Outcome
    requires i < |s.tasks| && s.tasks[i].client < |s.clients| == |s.logs|
  {
    var t := s.tasks[i];
    var cl := s.clients[t.client];
    var s1 := ReadBack(Prepare(g, s, t, ProductOf(cl, t, q)), t.client, t, q);
    var live := cl.open && cl.generation == t.generation;
    if live && !q.fits then Stopped
    else
      match LetGo(g, if live then Queue(s1, t.client, Report(cl, t, q)) else s1, t, q.releases)
      case Stopped => Stopped
      case Running(s2) => Running(Discount(s2, i))
  }

  // ---- the result in closed form ---------------------------------------------------------

  /** Whether the completion empties a file slot that was only draining. */
  predicate Drains(cl: Client, t: Task) {
    0 <= t.file < |cl.files| && t.kind != KClose && cl.files[t.file].closing && cl.files[t.file].inFlight == 1
  }

  function FinalFiles(s: State, cl: Client, t: Task, p: Product): seq<FileSlot> {
    var files :=
      if 0 <= t.file < |cl.files| then
        cl.files[t.file := if t.kind == KClose || Drains(cl, t) then FREE_FILE else Unpin(cl.files[t.file])]
      else cl.files;
    if 0 <= t.result < |files| then
      files[t.result := if p.Installed? then FileSlot(t.resultId, Some(s.issued), 0, true, false) else FREE_FILE]
    else files
  }

  function FinalBuffers(cl: Client, t: Task, q: Cqe): seq<BufferSlot> {
    if 0 <= t.buffer < |cl.buffers| then
      var x := SettledBuffers(t, q, cl.buffers)[t.buffer];
      cl.buffers[t.buffer := if x.closing && x.inFlight == 0 then FREE_BUFFER else x]
    else cl.buffers
  }

  function FinalFds(g: Config, s: State, cl: Client, t: Task, p: Product): State {
    var s1 := SettledFds(g, s, t, p);
    if Drains(cl, t) && cl.files[t.file].fd.Some? then
      CloseFd(s1.(table := s1.table - {GlobalFile(g, t.client, t.file)}), cl.files[t.file].fd.value)
    else s1
  }

  /** State `s` with these slots of client `c`, the fds of `fds` and this log of `c`. */
  function Slots(s: State, c: nat, files: seq<FileSlot>, buffers: seq<BufferSlot>, fds: State, log: seq<Record>): State
    requires c < |s.clients| == |s.logs|
  {
    s.(clients := s.clients[c := s.clients[c].(files := files, buffers := buffers)],
       table := fds.table, issued := fds.issued, ledger := fds.ledger, closed := fds.closed,
       logs := s.logs[c := log])
  }

  function LogAfter(s: State, t: Task, q: Cqe): seq<Record>
    requires t.client < |s.clients| == |s.logs|
  {
    var cl := s.clients[t.client];
    if cl.open && cl.generation == t.generation then s.logs[t.client] + Report(cl, t, q) else s.logs[t.client]
  }

  function Completed(g: Config, s: State, i: nat, q: Cqe): State
    requires i < |s.tasks| && s.tasks[i].client < |s.clients| == |s.logs|
  {
    var t := s.tasks[i];
    var cl := s.clients[t.client];
    var p := ProductOf(cl, t, q);
    Slots(Discount(s, i), t.client, FinalFiles(s, cl, t, p), FinalBuffers(cl, t, q), FinalFds(g, s, cl, t, p),
          LogAfter(s, t, q))
  }

  /** What the closed form needs to know of the task and its client. */
  ghost predicate Ready(g: Config, s: State, i: nat) {
    && Shape(g, s) && i < |s.tasks| && s.tasks[i].client < |s.clients|
    && Settling(g, s.clients[s.tasks[i].client], s.tasks[i].client, s.tasks[i])
  }

  lemma SettledFile(g: Config, s: State, cl: Client, t: Task, p: Product)
    requires Settling(g, cl, t.client, t) && 0 <= t.file < |cl.files|
    ensures
      var f := SettledFiles(s, t, p, cl.files)[t.file];
      f == if t.kind == KClose then FREE_FILE else Unpin(cl.files[t.file])
    ensures t.kind != KClose ==> cl.files[t.file].registered && cl.files[t.file].fd.Some? && cl.files[t.file].inFlight >= 1
    ensures t.kind == KClose ==> KernelClosingFile(cl.files[t.file])
    ensures t.file != t.result
  {
    assert FileOk(cl.open, cl.files[t.file]);
    assert One(UsesFile(t.client, t.file), t) == 1;
  }

  lemma SettleForm(g: Config, s: State, i: nat, q: Cqe)
    requires i < |s.tasks| && s.tasks[i].client < |s.clients| == |s.logs|
    ensures
      var t := s.tasks[i];
      var cl := s.clients[t.client];
      var p := ProductOf(cl, t, q);
      Settle(g, s, i, q) == Slots(Discount(s, i), t.client, SettledFiles(s, t, p, cl.files),
                                  SettledBuffers(t, q, cl.buffers), SettledFds(g, s, t, p), LogAfter(s, t, q))
  {
    hide ProductOf, Report, SettledFiles, SettledBuffers;
    assert s.logs[s.tasks[i].client := s.logs[s.tasks[i].client]] == s.logs;
  }

  lemma ReleaseInSlots(g: Config, s: State, c: nat, files: seq<FileSlot>, buffers: seq<BufferSlot>, fds: State,
                       log: seq<Record>, k: nat, releases: bool)
    requires c < |s.clients| == |s.logs|
    requires k < |files| && files[k].closing && files[k].registered && files[k].inFlight == 0 && files[k].fd.Some?
    ensures
      TryReleaseFile(g, Slots(s, c, files, buffers, fds, log), c, k, releases) ==
        if !releases then Stopped
        else Running(Slots(s, c, files[k := FREE_FILE], buffers,
                           CloseFd(fds.(table := fds.table - {GlobalFile(g, c, k)}), files[k].fd.value), log))
  {
    SlotsFile(s, c, files, buffers, fds, log, k, FREE_FILE);
  }

  /** Changing one file slot of such a state. */
  lemma SlotsFile(s: State, c: nat, files: seq<FileSlot>, buffers: seq<BufferSlot>, fds: State, log: seq<Record>,
                  k: nat, f: FileSlot)
    requires c < |s.clients| == |s.logs| && k < |files|
    ensures
      var x := Slots(s, c, files, buffers, fds, log);
      SetClient(x, c, SetFile(x.clients[c], k, f)) == Slots(s, c, files[k := f], buffers, fds, log)
  {
    var x := Slots(s, c, files, buffers, fds, log);
    assert x.clients[c := SetFile(x.clients[c], k, f)] == Slots(s, c, files[k := f], buffers, fds, log).clients;
  }

  lemma SlotsBuffer(s: State, c: nat, files: seq<FileSlot>, buffers: seq<BufferSlot>, fds: State, log: seq<Record>,
                    b: nat, x: BufferSlot)
    requires c < |s.clients| == |s.logs| && b < |buffers|
    ensures
      var y := Slots(s, c, files, buffers, fds, log);
      SetClient(y, c, SetBuffer(y.clients[c], b, x)) == Slots(s, c, files, buffers[b := x], fds, log)
  {
    var y := Slots(s, c, files, buffers, fds, log);
    assert y.clients[c := SetBuffer(y.clients[c], b, x)] == Slots(s, c, files, buffers[b := x], fds, log).clients;
  }

  lemma ReleaseInSlotsBuffer(s: State, c: nat, files: seq<FileSlot>, buffers: seq<BufferSlot>, fds: State,
                             log: seq<Record>, b: nat)
    requires c < |s.clients| == |s.logs| && b < |buffers|
    ensures
      TryReleaseBuffer(Slots(s, c, files, buffers, fds, log), c, b) ==
        Slots(s, c, files,
              if buffers[b].inFlight == 0 && (!buffers[b].registered || buffers[b].closing)
              then buffers[b := FREE_BUFFER] else buffers, fds, log)
  {
    SlotsBuffer(s, c, files, buffers, fds, log, b, FREE_BUFFER);
  }

  /** The step function leads to the closed form. */
  lemma StepIsClosedForm(g: Config, s: State, i: nat, q: Cqe)
    requires Ready(g, s, i)
    requires !(s.clients[s.tasks[i].client].open && !q.fits)
    ensures CompleteTask(g, s, i, q) ==
            if Drains(s.clients[s.tasks[i].client], s.tasks[i]) && !q.releases then Stopped
            else Running(Completed(g, s, i, q))
  {
    hide Report, ProductOf, SettledFds, ClientOk, Settle, LogAfter, SettledBuffers, TryReleaseFile, TryReleaseBuffer;
    var t := s.tasks[i];
    var c := t.client;
    var cl := s.clients[c];
    var p := ProductOf(cl, t, q);
    SettleForm(g, s, i, q);
    var files, buffers := SettledFiles(s, t, p, cl.files), SettledBuffers(t, q, cl.buffers);
    var fds, log := SettledFds(g, s, t, p), LogAfter(s, t, q);
    var s1 := Slots(Discount(s, i), t.client, files, buffers, fds, log);
    var r := ReleaseFileAfter(g, s1, c, t.file, q.releases);
    assert r == if Drains(cl, t) && !q.releases then Stopped
                else Running(Slots(Discount(s, i), t.client, FinalFiles(s, cl, t, p), buffers, FinalFds(g, s, cl, t, p), log)) by {
      FileReleased(g, s, i, buffers, log, p, q.releases);
    }
    if r.Running? {
      BuffersFinal(g, s, i, q, FinalFiles(s, cl, t, p), FinalFds(g, s, cl, t, p), log);
    }
  }

  lemma FileReleased(g: Config, s: State, i: nat, buffers: seq<BufferSlot>, log: seq<Record>, p: Product, releases: bool)
    requires Ready(g, s, i)
    ensures
      var t := s.tasks[i];
      var cl := s.clients[t.client];
      var s1 := Slots(Discount(s, i), t.client, SettledFiles(s, t, p, cl.files), buffers, SettledFds(g, s, t, p), log);
      ReleaseFileAfter(g, s1, t.client, t.file, releases) ==
        if Drains(cl, t) && !releases then Stopped
        else Running(Slots(Discount(s, i), t.client, FinalFiles(s, cl, t, p), buffers, FinalFds(g, s, cl, t, p), log))
  {
    hide ClientOk, SettledFds;
    var t := s.tasks[i];
    var cl := s.clients[t.client];
    var files := SettledFiles(s, t, p, cl.files);
    if 0 <= t.file < |cl.files| {
      SettledFile(g, s, cl, t, p);
      if Drains(cl, t) {
        ReleaseInSlots(g, Discount(s, i), t.client, files, buffers, SettledFds(g, s, t, p), log, t.file, releases);
        assert files[t.file := FREE_FILE] == FinalFiles(s, cl, t, p);
      } else {
        assert files == FinalFiles(s, cl, t, p);
      }
    }
  }

  lemma BuffersFinal(g: Config, s: State, i: nat, q: Cqe, files: seq<FileSlot>, fds: State, log: seq<Record>)
    requires Ready(g, s, i)
    ensures
      var t := s.tasks[i];
      var cl := s.clients[t.client];
      ReleaseBufferAfter(Slots(Discount(s, i), t.client, files, SettledBuffers(t, q, cl.buffers), fds, log), t.client, t.buffer)
      == Slots(Discount(s, i), t.client, files, FinalBuffers(cl, t, q), fds, log)
  {
    hide ClientOk;
    var t := s.tasks[i];
    var cl := s.clients[t.client];
    var buffers := SettledBuffers(t, q, cl.buffers);
    if 0 <= t.buffer < |cl.buffers| {
      ReleaseInSlotsBuffer(Discount(s, i), t.client, files, buffers, fds, log, t.buffer);
      assert FinalBuffers(cl, t, q) ==
             if buffers[t.buffer].closing && buffers[t.buffer].inFlight == 0
             then buffers[t.buffer := FREE_BUFFER] else buffers;
    }
  }

  // ---- the daemon's order ----------------------------------------------------------------------

  lemma DiscountSlots(s: State, i: nat, files: seq<FileSlot>, buffers: seq<BufferSlot>, fds: State, log: seq<Record>)
    requires i < |s.tasks| && s.tasks[i].client < |s.clients| == |s.logs|
    ensures
      var c := s.tasks[i].client;
      Discount(Slots(s, c, files, buffers, fds, log), i) == Slots(Discount(s, i), c, files, buffers, fds, log)
  {
    var c := s.tasks[i].client;
    assert Discount(Slots(s, c, files, buffers, fds, log), i).clients
        == Slots(Discount(s, i), c, files, buffers, fds, log).clients;
  }

  /** The file slots once a new file is in its slot. */
  function PreparedFiles(s: State, cl: Client, t: Task, p: Product): (r: seq<FileSlot>)
    ensures |r| == |cl.files|
  {
    if p.Installed? && 0 <= t.result < |cl.files| then
      cl.files[t.result := cl.files[t.result].(id := t.resultId, fd := Some(s.issued), registered := true, closing := false)]
    else cl.files
  }

  function PreparedBuffers(cl: Client, t: Task, q: Cqe): (r: seq<BufferSlot>)
    ensures |r| == |cl.buffers|
  {
    if t.kind == KSockReadFixed && 0 <= t.buffer < |cl.buffers| && q.res >= 0 then
      cl.buffers[t.buffer := cl.buffers[t.buffer].(validLength := q.res)]
    else cl.buffers
  }

  lemma PrepareForm(g: Config, s: State, i: nat, q: Cqe)
    requires i < |s.tasks| && s.tasks[i].client < |s.clients| == |s.logs|
    ensures
      var t := s.tasks[i];
      var c := t.client;
      var cl := s.clients[c];
      var p := ProductOf(cl, t, q);
      var s1 := ReadBack(Prepare(g, s, t, p), c, t, q);
      var live := cl.open && cl.generation == t.generation;
      |s1.clients| == |s1.logs| == |s.clients|
      && (if live then Queue(s1, c, Report(cl, t, q)) else s1)
      == Slots(s, c, PreparedFiles(s, cl, t, p), PreparedBuffers(cl, t, q), SettledFds(g, s, t, p), LogAfter(s, t, q))
  {
    hide ProductOf, Report;
    var t := s.tasks[i];
    var c := t.client;
    var cl := s.clients[c];
    var p := ProductOf(cl, t, q);
    var s1 := ReadBack(Prepare(g, s, t, p), c, t, q);
    assert s.logs[c := s.logs[c]] == s.logs;
    var x := Slots(s, c, PreparedFiles(s, cl, t, p), PreparedBuffers(cl, t, q), SettledFds(g, s, t, p), LogAfter(s, t, q));
    assert s1.clients[c] == x.clients[c];
    assert s1.clients == x.clients;
  }

  /** The file slots once the task's own file is let go too. */
  function UnpinnedFiles(s: State, cl: Client, t: Task, p: Product): (r: seq<FileSlot>)
    ensures |r| == |cl.files|
  {
    var files := PreparedFiles(s, cl, t, p);
    if 0 <= t.file < |files| then
      files[t.file := if t.kind == KClose || Drains(cl, t) then FREE_FILE else Unpin(files[t.file])]
    else files
  }

  lemma LetGoFileForm(g: Config, s: State, i: nat, p: Product, buffers: seq<BufferSlot>, log: seq<Record>, releases: bool)
    requires Ready(g, s, i)
    ensures
      var t := s.tasks[i];
      var c := t.client;
      var cl := s.clients[c];
      LetGoFile(g, Slots(s, c, PreparedFiles(s, cl, t, p), buffers, SettledFds(g, s, t, p), log), c, t.file, releases)
      == if Drains(cl, t) && !releases then Stopped
         else Running(Slots(s, c, UnpinnedFiles(s, cl, t, p), buffers, FinalFds(g, s, cl, t, p), log))
  {
    hide ClientOk, SettledFds;
    var t := s.tasks[i];
    var c := t.client;
    var cl := s.clients[c];
    var files, fds := PreparedFiles(s, cl, t, p), SettledFds(g, s, t, p);
    if 0 <= t.file < |cl.files| {
      SettledFile(g, s, cl, t, p);
      var f := Unpin(files[t.file]);
      assert files[t.file] == cl.files[t.file];
      SlotsFile(s, c, files, buffers, fds, log, t.file, f);
      if Drains(cl, t) {
        ReleaseInSlots(g, s, c, files[t.file := f], buffers, fds, log, t.file, releases);
        assert files[t.file := f][t.file := FREE_FILE] == files[t.file := FREE_FILE];
      } else if t.kind == KClose {
        SlotsFile(s, c, files[t.file := f], buffers, fds, log, t.file, FREE_FILE);
        assert files[t.file := f][t.file := FREE_FILE] == files[t.file := FREE_FILE];
      }
    }
  }

  /** The slot reserved for the result, as it is when its turn comes. */
  lemma ReservedAtTurn(g: Config, s: State, cl: Client, t: Task, p: Product)
    requires Settling(g, cl, t.client, t) && (p.Installed? ==> MakesFile(t.kind)) && 0 <= t.result < |cl.files|
    ensures
      var files := UnpinnedFiles(s, cl, t, p);
      var f := Unpin(files[t.result]);
      && (if p.Installed? then f.registered && !f.closing && files[t.result := f] == FinalFiles(s, cl, t, p)
          else !f.registered && f.inFlight == 0 && f.fd.None?
               && files[t.result := f][t.result := FREE_FILE] == FinalFiles(s, cl, t, p))
  {
    hide ClientOk;
    var files := UnpinnedFiles(s, cl, t, p);
    if 0 <= t.file < |cl.files| { SettledFile(g, s, cl, t, p); }
    var f := Unpin(files[t.result]);
    if p.Installed? {
      assert files[t.result := f] == FinalFiles(s, cl, t, p);
    } else {
      assert files[t.result := f][t.result := FREE_FILE] == FinalFiles(s, cl, t, p);
    }
  }

  lemma LetGoResultForm(g: Config, s: State, i: nat, p: Product, buffers: seq<BufferSlot>, fds: State, log: seq<Record>,
                        releases: bool)
    requires Ready(g, s, i) && (p.Installed? ==> MakesFile(s.tasks[i].kind))
    ensures
      var t := s.tasks[i];
      var c := t.client;
      var cl := s.clients[c];
      LetGoResult(g, Slots(s, c, UnpinnedFiles(s, cl, t, p), buffers, fds, log), c, t.result, releases)
      == Running(Slots(s, c, FinalFiles(s, cl, t, p), buffers, fds, log))
  {
    var t := s.tasks[i];
    var c := t.client;
    var cl := s.clients[c];
    var files := UnpinnedFiles(s, cl, t, p);
    if 0 <= t.result < |cl.files| {
      ReservedAtTurn(g, s, cl, t, p);
      hide Settling, FinalFiles, UnpinnedFiles;
      var f := Unpin(files[t.result]);
      SlotsFile(s, c, files, buffers, fds, log, t.result, f);
      SlotsFile(s, c, files[t.result := f], buffers, fds, log, t.result, FREE_FILE);
    } else {
      hide Settling;
    }
  }

  lemma LetGoBufferForm(g: Config, s: State, i: nat, q: Cqe, files: seq<FileSlot>, fds: State, log: seq<Record>)
    requires Ready(g, s, i)
    ensures
      var t := s.tasks[i];
      var c := t.client;
      var cl := s.clients[c];
      LetGoBuffer(Slots(s, c, files, PreparedBuffers(cl, t, q), fds, log), c, t.buffer)
      == Slots(s, c, files, FinalBuffers(cl, t, q), fds, log)
  {
    hide ClientOk, Settling, TryReleaseBuffer;
    var t := s.tasks[i];
    var c := t.client;
    var cl := s.clients[c];
    var buffers := PreparedBuffers(cl, t, q);
    if 0 <= t.buffer < |cl.buffers| {
      var x := UnpinBuffer(buffers[t.buffer]);
      SlotsBuffer(s, c, files, buffers, fds, log, t.buffer, x);
      ReleaseInSlotsBuffer(s, c, files, buffers[t.buffer := x], fds, log, t.buffer);
      assert buffers[t.buffer := x][t.buffer := FREE_BUFFER] == buffers[t.buffer := FREE_BUFFER];
      assert buffers[t.buffer := FREE_BUFFER] == cl.buffers[t.buffer := FREE_BUFFER];
      assert buffers[t.buffer := x] == cl.buffers[t.buffer := x];
    }
  }

  /** In every state the invariant allows, the daemon's order of work has the effect of the
      completion step. */
  lemma InOrderCompletes(g: Config, s: State, i: nat, q: Cqe)
    requires Inv(g, s) && i < |s.tasks| && s.tasks[i].active
    ensures s.tasks[i].client < |s.clients| == |s.logs| && InOrder(g, s, i, q) == CompleteTask(g, s, i, q)
  {
    hide Inv, OpsOk, TableOk, LedgerOk, SessionOk, Settling, TaskOk;
    hide ProductOf, Report, ReadBack, Prepare, LetGoFile, LetGoResult, LetGoBuffer, Discount, CompleteTask, Queue;
    Around(g, s, i);
    assert Ready(g, s, i);
    var t := s.tasks[i];
    var c := t.client;
    var cl := s.clients[c];
    var p := ProductOf(cl, t, q);
    assert cl.generation == t.generation by { SameGeneration(g, cl, c, t); }
    if !(cl.open && !q.fits) {
      StepIsClosedForm(g, s, i, q);
      PrepareForm(g, s, i, q);
      var log := LogAfter(s, t, q);
      LetGoFileForm(g, s, i, p, PreparedBuffers(cl, t, q), log, q.releases);
      assert p.Installed? ==> MakesFile(t.kind) by { ProductSound(g, cl, c, t, q); }
      LetGoResultForm(g, s, i, p, PreparedBuffers(cl, t, q), FinalFds(g, s, cl, t, p), log, q.releases);
      LetGoBufferForm(g, s, i, q, FinalFiles(s, cl, t, p), FinalFds(g, s, cl, t, p), log);
      DiscountSlots(s, i, FinalFiles(s, cl, t, p), FinalBuffers(cl, t, q), FinalFds(g, s, cl, t, p), log);
    } else {
      StoppedAtOnce(g, s, i, q);
    }
  }

  lemma StoppedAtOnce(g: Config, s: State, i: nat, q: Cqe)
    requires i < |s.tasks| && s.tasks[i].client < |s.clients| == |s.logs|
    requires s.clients[s.tasks[i].client].open && s.clients[s.tasks[i].client].generation == s.tasks[i].generation && !q.fits
    ensures CompleteTask(g, s, i, q).Stopped?
  {
    hide Settle;
  }

  lemma SameGeneration(g: Config, cl: Client, c: nat, t: Task)
    requires Settling(g, cl, c, t)
    ensures cl.generation == t.generation
  {
  }
}
