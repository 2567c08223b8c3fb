/** How the parts of the invariant survive a change to one client and one task slot. */
module DaemonFrame {
  import opened Protocol
  import opened DaemonState
  import opened DaemonInvariant

  // ---- counting ------------------------------------------------------------------

  lemma {:induction false} CountUpdate(q: Query, tasks: seq<Task>, i: nat, t: Task)
    requires i < |tasks|
    ensures Count(q, tasks[i := t]) + One(q, tasks[i]) == Count(q, tasks) + One(q, t)
  {
    var n := |tasks| - 1;
    if i == n {
      assert tasks[i := t][..n] == tasks[..n];
    } else {
      CountUpdate(q, tasks[..n], i, t);
      assert tasks[i := t][..n] == tasks[..n][i := t];
    }
  }

  lemma {:induction false} CountNone(q: Query, tasks: seq<Task>)
    ensures (Count(q, tasks) == 0) == (forall j | 0 <= j < |tasks| :: !Hit(q, tasks[j]))
  {
    if tasks != [] {
      var n := |tasks| - 1;
      CountNone(q, tasks[..n]);
      assert forall j | 0 <= j < n :: tasks[j] == tasks[..n][j];
    }
  }

  /** A count that task `i` alone accounts for is hit by no other task. */
  lemma CountOthers(q: Query, tasks: seq<Task>, i: nat)
    requires i < |tasks| && Count(q, tasks) == One(q, tasks[i])
    ensures forall j | 0 <= j < |tasks| && j != i :: !Hit(q, tasks[j])
  {
    var rest := tasks[i := IDLE_TASK];
    CountUpdate(q, tasks, i, IDLE_TASK);
    CountNone(q, rest);
    assert forall j | 0 <= j < |tasks| && j != i :: rest[j] == tasks[j];
  }

  lemma {:induction false} CountBound(q: Query, tasks: seq<Task>)
    ensures Count(q, tasks) <= |tasks|
    ensures (forall j | 0 <= j < |tasks| :: Hit(q, tasks[j])) || Count(q, tasks) < |tasks|
  {
    if tasks != [] {
      var n := |tasks| - 1;
      CountBound(q, tasks[..n]);
      assert forall j | 0 <= j < n :: tasks[j] == tasks[..n][j];
    }
  }

  // ---- the change ------------------------------------------------------------------

  /** Task slot `i`; the index past the last one stands for no slot at all. */
  function At(tasks: seq<Task>, i: nat): Task {
    if i < |tasks| then tasks[i] else IDLE_TASK
  }

  /** `s'` differs from `s` in client `c` and task slot `i` at most, as far as clients
      and tasks go, and that task slot is client `c`'s before and after. */
  ghost predicate Touches(g: Config, s: State, s': State, c: nat, i: nat) {
    && Shape(g, s) && Shape(g, s')
    && c < |s.clients| && i <= |s.tasks|
    && s'.clients == s.clients[c := s'.clients[c]]
    && s'.tasks == (if i < |s.tasks| then s.tasks[i := s'.tasks[i]] else s.tasks)
    && (At(s.tasks, i).active ==> At(s.tasks, i).client == c)
    && (At(s'.tasks, i).active ==> At(s'.tasks, i).client == c)
  }

  /** Client `c`'s counters moved as task slot `i` did. */
  ghost predicate CountersFollow(cl: Client, cl': Client, c: nat, t: Task, t': Task)
    requires |cl'.files| == |cl.files| && |cl'.buffers| == |cl.buffers|
  {
    && (forall k | 0 <= k < |cl.files| ::
          cl'.files[k].inFlight + One(UsesFile(c, k), t) == cl.files[k].inFlight + One(UsesFile(c, k), t'))
    && (forall b | 0 <= b < |cl.buffers| ::
          cl'.buffers[b].inFlight + One(UsesBuffer(c, b), t) == cl.buffers[b].inFlight + One(UsesBuffer(c, b), t'))
    && cl'.outstanding + One(OfClient(c), t) == cl.outstanding + One(OfClient(c), t')
    && cl'.outstandingCredit + One(CreditOf(c), t) == cl.outstandingCredit + One(CreditOf(c), t')
  }

  ghost predicate TotalsFollow(s: State, s': State, t: Task, t': Task) {
    && s'.outstanding + One(Every, t) == s.outstanding + One(Every, t')
    && s'.outstandingCredit + One(EveryCredit, t) == s.outstandingCredit + One(EveryCredit, t')
    && s'.accepted == s'.completions + s'.outstanding
  }

  lemma CountedFrame(g: Config, s: State, s': State, c: nat, i: nat)
    requires Touches(g, s, s', c, i) && Counted(s)
    requires CountersFollow(s.clients[c], s'.clients[c], c, At(s.tasks, i), At(s'.tasks, i))
    requires TotalsFollow(s, s', At(s.tasks, i), At(s'.tasks, i))
    ensures Counted(s')
  {
    forall q: Query
      ensures Count(q, s'.tasks) + One(q, At(s.tasks, i)) == Count(q, s.tasks) + One(q, At(s'.tasks, i))
    {
      if i < |s.tasks| { CountUpdate(q, s.tasks, i, s'.tasks[i]); }
    }
    forall d | 0 <= d < |s.clients|
      ensures CountedClient(s'.clients[d], d, s'.tasks)
    {
      assert CountedClient(s.clients[d], d, s.tasks);
    }
  }

  /** The slots of client `c` as tasks other than `t` need them: a slot that some other
      task uses keeps its id, its fd and its registration. */
  ghost predicate KeepsOthers(cl: Client, cl': Client, c: nat, t: Task)
    requires |cl'.files| == |cl.files| && |cl'.buffers| == |cl.buffers|
  {
    && cl'.generation == cl.generation
    && (forall k | 0 <= k < |cl.files| ::
          cl.files[k].inFlight == One(UsesFile(c, k), t) || SameFile(cl.files[k], cl'.files[k]))
    && (forall b | 0 <= b < |cl.buffers| ::
          cl.buffers[b].inFlight == One(UsesBuffer(c, b), t) || SameBuffer(cl.buffers[b], cl'.buffers[b]))
  }

  predicate SameFile(f: FileSlot, f': FileSlot) {
    f' == f || (f.registered && f'.registered && f'.id == f.id && f'.fd == f.fd)
  }

  predicate SameBuffer(b: BufferSlot, b': BufferSlot) {
    b'.registered == b.registered && b'.id == b.id
  }

  lemma HitElsewhere(q: Query, tasks: seq<Task>, i: nat, j: nat)
    requires i <= |tasks| && j < |tasks| && j != i && Hit(q, tasks[j])
    ensures Count(q, tasks) != One(q, At(tasks, i))
  {
    if Count(q, tasks) == One(q, At(tasks, i)) {
      if i < |tasks| { CountOthers(q, tasks, i); } else { CountNone(q, tasks); }
    }
  }

  lemma OtherTaskOk(g: Config, s: State, s': State, c: nat, i: nat, j: nat)
    requires Touches(g, s, s', c, i)
    requires CountedClient(s.clients[c], c, s.tasks)
    requires KeepsOthers(s.clients[c], s'.clients[c], c, At(s.tasks, i))
    requires j < |s.tasks| && j != i && s.tasks[j].active && s.tasks[j].client == c
    requires TaskOk(g, s.clients[c], s.tasks[j])
    ensures TaskOk(g, s'.clients[c], s.tasks[j])
    ensures forall fd :: WorksOn(s, s.tasks[j], fd) ==> WorksOn(s', s.tasks[j], fd)
  {
    var t := s.tasks[j];
    if t.file >= 0 { HitElsewhere(UsesFile(c, t.file), s.tasks, i, j); }
    if t.result >= 0 { HitElsewhere(UsesFile(c, t.result), s.tasks, i, j); }
    if t.buffer >= 0 { HitElsewhere(UsesBuffer(c, t.buffer), s.tasks, i, j); }
  }

  lemma TasksFrame(g: Config, s: State, s': State, c: nat, i: nat)
    requires Touches(g, s, s', c, i) && Counted(s) && TasksOk(g, s)
    requires KeepsOthers(s.clients[c], s'.clients[c], c, At(s.tasks, i))
    requires s.nextTaskId <= s'.nextTaskId
    requires if At(s'.tasks, i).active
             then 0 < At(s'.tasks, i).id < s'.nextTaskId && TaskOk(g, s'.clients[c], At(s'.tasks, i))
             else At(s'.tasks, i) == IDLE_TASK
    ensures TasksOk(g, s')
  {
    assert CountedClient(s.clients[c], c, s.tasks);
    forall j | 0 <= j < |s.tasks| && j != i && s.tasks[j].active
      ensures TaskOk(g, s'.clients[s.tasks[j].client], s.tasks[j])
    {
      if s.tasks[j].client == c { OtherTaskOk(g, s, s', c, i, j); }
    }
  }

  /** What the operations in flight need of a change to task slot `i`. */
  ghost predicate OpsFollow(s: State, s': State, t: Task, t': Task, i: nat) {
    if t.active then
      !t'.active && s'.ops == s.ops - {t.id}
    else if t'.active then
      && t'.id !in s.ops
      && t'.id in s'.ops
      && s'.ops == s.ops[t'.id := s'.ops[t'.id]]
      && s'.ops[t'.id].slot == i
      && WorksOn(s', t', s'.ops[t'.id].fd)
    else s'.ops == s.ops
  }

  lemma OpsUpdate(g: Config, s: State, s': State, c: nat, i: nat)
    requires Touches(g, s, s', c, i) && OpsOk(s)
    requires OpsFollow(s, s', At(s.tasks, i), At(s'.tasks, i), i)
    requires forall j | 0 <= j < |s.tasks| && j != i && s.tasks[j].active ::
               WorksOn(s', s.tasks[j], s.ops[s.tasks[j].id].fd)
    ensures OpsOk(s')
  {
    hide WorksOn;
    forall j | 0 <= j < |s.tasks| && j != i && s'.tasks[j].active
      ensures s'.tasks[j] == s.tasks[j] && s.tasks[j].id in s'.ops
      ensures s'.ops[s.tasks[j].id] == s.ops[s.tasks[j].id]
    {
      assert s.ops[s.tasks[j].id].slot == j;
    }
  }

  lemma OpsFrame(g: Config, s: State, s': State, c: nat, i: nat)
    requires Touches(g, s, s', c, i) && Counted(s) && TasksOk(g, s) && OpsOk(s)
    requires KeepsOthers(s.clients[c], s'.clients[c], c, At(s.tasks, i))
    requires OpsFollow(s, s', At(s.tasks, i), At(s'.tasks, i), i)
    ensures OpsOk(s')
  {
    assert CountedClient(s.clients[c], c, s.tasks);
    forall j | 0 <= j < |s.tasks| && j != i && s.tasks[j].active
      ensures WorksOn(s', s.tasks[j], s.ops[s.tasks[j].id].fd)
    {
      assert WorksOn(s, s.tasks[j], s.ops[s.tasks[j].id].fd);
      if s.tasks[j].client == c { OtherTaskOk(g, s, s', c, i, j); }
    }
    OpsUpdate(g, s, s', c, i);
  }

  // ---- sessions ----------------------------------------------------------------------

  /** Appending one record is one observation. */
  lemma ReplayAppend(log: seq<Record>, r: Record)
    ensures Replay(log + [r]) == (match Replay(log) case None => None case Some(x) => Observe(x, r))
  {
    assert (log + [r])[..|log|] == log;
  }

  /** The other connections notice nothing. */
  lemma SessionsFrame(g: Config, s: State, s': State, c: nat, i: nat)
    requires Touches(g, s, s', c, i) && OpsOk(s) && SessionsOk(s)
    requires OpsFollow(s, s', At(s.tasks, i), At(s'.tasks, i), i)
    requires s.nextTaskId <= s'.nextTaskId
    requires s'.logs == s.logs[c := s'.logs[c]]
    requires s'.clients[c].open ==> SessionOk(s', c)
    ensures SessionsOk(s')
  {
    forall d | 0 <= d < |s.clients| && d != c && s'.clients[d].open
      ensures SessionOk(s', d)
    {
      assert SessionOk(s, d);
      var x := Replay(s.logs[d]).value;
      forall id | id in x.pending
        ensures id in s'.ops && s'.ops[id].slot < |s'.tasks| && s'.tasks[s'.ops[id].slot].client == d
      {
        assert s.tasks[s.ops[id].slot].id == id;
      }
    }
  }

  /** A record that starts or ends no task. */
  lemma SessionPlain(g: Config, s: State, s': State, c: nat, r: Record)
    requires Touches(g, s, s', c, |s.tasks|) && SessionOk(s, c)
    requires s'.ops == s.ops && s'.nextTaskId == s.nextTaskId
    requires s'.logs[c] == s.logs[c] + [r] && s.clients[c].submit && s'.clients[c].submit && !r.HandshakeResult?
    requires !r.Completion? && !r.Payload? && (r.SubmitResult? ==> r.id == 0 && r.res < 0)
    ensures SessionOk(s', c)
  {
    ReplayAppend(s.logs[c], r);
  }

  lemma SessionAdmit(g: Config, s: State, s': State, c: nat, i: nat)
    requires Touches(g, s, s', c, i) && i < |s.tasks| && OpsOk(s) && SessionOk(s, c)
    requires !s.tasks[i].active && s'.tasks[i].active && s'.tasks[i].id == s.nextTaskId > 0
    requires OpsFollow(s, s', s.tasks[i], s'.tasks[i], i)
    requires s'.nextTaskId == s.nextTaskId + 1
    requires s'.logs[c] == s.logs[c] + [SubmitResult(s.nextTaskId, 0)]
    requires s.clients[c].submit && s'.clients[c].submit
    ensures SessionOk(s', c)
  {
    ReplayAppend(s.logs[c], SubmitResult(s.nextTaskId, 0));
  }

  /** A valid completion record of task slot `i`, with its payload if it has one. */
  lemma SessionRetire(g: Config, s: State, s': State, c: nat, i: nat, kind: Kind, res: int, n: nat)
    requires Touches(g, s, s', c, i) && i < |s.tasks| && OpsOk(s) && SessionOk(s, c)
    requires s.tasks[i].active && !s'.tasks[i].active
    requires OpsFollow(s, s', s.tasks[i], s'.tasks[i], i)
    requires s'.nextTaskId == s.nextTaskId && s'.clients[c].submit == s.clients[c].submit
    requires CompletionValid(s.tasks[i].id, kind, res, n)
    requires s'.logs[c] == s.logs[c] + [Completion(s.tasks[i].id, kind, res, n)]
                           + (if n != 0 then [Payload(n)] else [])
    ensures SessionOk(s', c)
  {
    var r := Completion(s.tasks[i].id, kind, res, n);
    var x := Replay(s.logs[c]).value;
    ReplayAppend(s.logs[c], r);
    if n != 0 {
      ReplayAppend(s.logs[c] + [r], Payload(n));
    } else {
      assert s'.logs[c] == s.logs[c] + [r];
    }
    var y := Replay(s'.logs[c]).value;
    assert y == x.(pending := x.pending - {s.tasks[i].id});
    forall j | 0 <= j < |s.tasks| && j != i && s.tasks[j].active && s.tasks[j].client == c
      ensures s.tasks[j].id in y.pending
    {
      assert s.ops[s.tasks[j].id].slot == j;
    }
    forall id | id in y.pending
      ensures id in s'.ops && s'.ops[id].slot < |s'.tasks| && s'.tasks[s'.ops[id].slot].client == c
    {
      assert s.tasks[s.ops[id].slot].id == id;
    }
  }

  // ---- fd tokens -----------------------------------------------------------------------

  /** Token `fd`, new or not, leaves the place it was in and goes to place `p`, which was
      empty; no other place changes. */
  ghost predicate Moves(s: State, s': State, fd: Fd, p: Place) {
    && fd <= s.issued
    && (fd in s.ledger ==> s.ledger[fd] != Closed && s.ledger[fd] != p && Held(s', s.ledger[fd]).None?)
    && s'.ledger == s.ledger[fd := p]
    && s'.issued == (if fd == s.issued then fd + 1 else s.issued)
    && s'.closed == (if p.Closed? then s.closed + [fd] else s.closed)
    && (!p.Closed? ==> Held(s, p).None? && Held(s', p) == Some(fd))
    && (forall q: Place | q != p && !(fd in s.ledger && q == s.ledger[fd]) :: Held(s', q) == Held(s, q))
  }

  lemma LedgerMove(s: State, s': State, fd: Fd, p: Place)
    requires LedgerOk(s) && Moves(s, s', fd, p)
    ensures LedgerOk(s')
  {
    assert !Holds(s, Closed, fd);
    forall q: Place, x: Fd
      ensures Holds(s', q, x) <==> x in s'.ledger && s'.ledger[x] == q
    {
      assert Holds(s, q, x) <==> x in s.ledger && s.ledger[x] == q;
      assert Holds(s, q, fd) <==> fd in s.ledger && s.ledger[fd] == q;
    }
  }

  lemma Located(s: State, p: Place, fd: Fd)
    requires LedgerOk(s) && Held(s, p) == Some(fd)
    ensures fd in s.ledger && s.ledger[fd] == p && fd < s.issued
  {
    assert Holds(s, p, fd);
  }

  lemma FreshToken(s: State)
    requires LedgerOk(s)
    ensures s.issued !in s.ledger
  {
  }

  /** No token moves. */
  lemma LedgerSame(s: State, s': State)
    requires LedgerOk(s)
    requires s'.ledger == s.ledger && s'.issued == s.issued && s'.closed == s.closed
    requires forall q: Place :: Held(s', q) == Held(s, q)
    ensures LedgerOk(s')
  {
    forall q: Place, x: Fd
      ensures Holds(s', q, x) <==> x in s'.ledger && s'.ledger[x] == q
    {
      assert Holds(s, q, x) <==> x in s.ledger && s.ledger[x] == q;
    }
  }

  // ---- the fixed-file table --------------------------------------------------------

  lemma IndexBelow(g: Config, c: nat, k: nat)
    requires c < g.maxClients && k < g.fileSlots
    ensures GlobalFile(g, c, k) < g.maxClients * g.fileSlots
  {
    assert c * g.fileSlots + g.fileSlots == (c + 1) * g.fileSlots;
    assert (c + 1) * g.fileSlots <= g.maxClients * g.fileSlots by {
      Scale(c + 1, g.maxClients, g.fileSlots);
    }
  }

  lemma Scale(m: nat, n: nat, f: nat)
    requires m <= n
    ensures m * f <= n * f
  {
  }

  /** Distinct slots have distinct table entries. */
  lemma IndexInjective(g: Config, c: nat, k: nat, d: nat, l: nat)
    requires k < g.fileSlots && l < g.fileSlots
    requires GlobalFile(g, c, k) == GlobalFile(g, d, l)
    ensures c == d && k == l
  {
    if c < d {
      assert (c + 1) * g.fileSlots == c * g.fileSlots + g.fileSlots;
      Scale(c + 1, d, g.fileSlots);
    } else if d < c {
      assert (d + 1) * g.fileSlots == d * g.fileSlots + g.fileSlots;
      Scale(d + 1, c, g.fileSlots);
    }
  }

  /** The table may change at entries of client `c` only, and there follows its slots. */
  lemma TableFrame(g: Config, s: State, s': State, c: nat, i: nat, k: nat)
    requires Touches(g, s, s', c, i) && TableOk(g, s) && k < g.fileSlots
    requires forall n | n != GlobalFile(g, c, k) ::
               (n in s'.table) == (n in s.table) && (n in s.table ==> s'.table[n] == s.table[n])
    requires forall l | 0 <= l < g.fileSlots && l != k ::
               var f, f' := s.clients[c].files[l], s'.clients[c].files[l];
               (f.registered && f.fd.Some?) == (f'.registered && f'.fd.Some?) && f'.fd == f.fd
    requires EntryOk(g, s'.table, c, k, s'.clients[c].files[k])
    ensures TableOk(g, s')
  {
    forall d, l | 0 <= d < |s.clients| && 0 <= l < g.fileSlots && (d != c || l != k)
      ensures EntryOk(g, s'.table, d, l, s'.clients[d].files[l])
    {
      assert EntryOk(g, s.table, d, l, s.clients[d].files[l]);
      if GlobalFile(g, c, k) == GlobalFile(g, d, l) { IndexInjective(g, c, k, d, l); }
    }
    IndexBelow(g, c, k);
  }
}
