/** What the control requests do and answer, in terms of the states before and after. */
module DaemonControl {
  import opened Protocol
  import opened DaemonState
  import opened DaemonSteps
  import opened DaemonInvariant
  import opened DaemonSafety

  /** Client `c` has request `r` waiting. */
  ghost predicate Waits(g: Config, s: State, c: nat, r: Request) {
    Inv(g, s) && c < |s.clients| == |s.logs| && s.clients[c].request == Some(r)
  }

  predicate IsFile(cl: Client, k: int, id: nat) {
    0 <= k < |cl.files| && cl.files[k].registered && cl.files[k].id == id
  }

  predicate IsBuffer(cl: Client, b: int, id: nat) {
    0 <= b < |cl.buffers| && cl.buffers[b].registered && cl.buffers[b].id == id
  }

  /** A resource with this id is registered; and some task uses it. */
  predicate Known(cl: Client, id: nat) {
    (exists k | 0 <= k < |cl.files| :: IsFile(cl, k, id)) || (exists b | 0 <= b < |cl.buffers| :: IsBuffer(cl, b, id))
  }

  predicate Pinned(cl: Client, id: nat) {
    || (exists k | 0 <= k < |cl.files| :: IsFile(cl, k, id) && cl.files[k].inFlight != 0)
    || (exists b | 0 <= b < |cl.buffers| :: IsBuffer(cl, b, id) && cl.buffers[b].inFlight != 0)
  }

  /** The request was answered with this record; the tasks and all other clients are as before. */
  ghost predicate Replied(s: State, s': State, c: nat, id: nat, status: int)
    requires c < |s.clients| == |s.logs|
  {
    && c < |s'.clients| && s'.clients[c].request.None?
    && s'.clients == s.clients[c := s'.clients[c]]
    && s'.logs == s.logs[c := s.logs[c] + [ResourceResult(id, status)]]
    && s' == s.(clients := s'.clients, logs := s'.logs, table := s'.table, ledger := s'.ledger, closed := s'.closed)
  }

  /** The answer goes out from state `s1`, which differs from `s` in client `c` and the files. */
  lemma ReplyForm(s: State, s1: State, c: nat, cl1: Client, id: nat, status: int, o: Oracle)
    requires c < |s.clients| == |s.logs|
    requires s1 == s.(clients := s.clients[c := cl1], table := s1.table, ledger := s1.ledger, closed := s1.closed)
    ensures
      var x := ReplyResource(s1, c, id, status, o);
      && (x.Running? <==> o.fits)
      && (x.Running? ==>
            && Replied(s, x.state, c, id, status) && x.state.clients[c] == cl1.(request := None)
            && x.state.table == s1.table && x.state.ledger == s1.ledger && x.state.closed == s1.closed)
  {
    assert s.clients[c := cl1][c := cl1.(request := None)] == s.clients[c := cl1.(request := None)];
  }

  lemma Sound(g: Config, s: State, c: nat)
    requires Inv(g, s) && c < |s.clients|
    ensures ClientOk(g, s.clients[c])
  {
    hide LedgerOk, TableOk, SessionsOk, Counted, OpsOk, TasksOk;
  }

  lemma SameClient(s: State, c: nat)
    requires c < |s.clients|
    ensures s.clients[c := s.clients[c]] == s.clients
  {
  }

  lemma DropForm(g: Config, s: State, c: nat, k: nat)
    requires c < |s.clients| && k < |s.clients[c].files| && s.clients[c].files[k].fd.Some?
    ensures
      var s1, cl := DropFile(g, s, c, k), s.clients[c];
      && s1 == s.(clients := s.clients[c := cl.(files := cl.files[k := FREE_FILE])],
                  table := s.table - {GlobalFile(g, c, k)}, ledger := s1.ledger, closed := s1.closed)
      && s1.closed == s.closed + [cl.files[k].fd.value]
  {
  }

  // ---- RELEASE_RESOURCE ------------------------------------------------------------------------

  /** Which status RELEASE_RESOURCE answers with. */
  function ReleaseStatus(cl: Client, id: nat): int {
    if id == 0 then -EINVAL
    else if !Known(cl, id) then -ENOENT
    else if Pinned(cl, id) then -EBUSY
    else 0
  }

  lemma {:induction false} SearchesFind(g: Config, cl: Client, id: nat)
    requires ClientOk(g, cl)
    ensures forall k | IsFile(cl, k, id) && id != 0 :: k == FindFile(cl.files, id)
    ensures forall b | IsBuffer(cl, b, id) && id != 0 :: b == FindBuffer(cl.buffers, id) && FindFile(cl.files, id) == |cl.files|
    ensures var k := FindFile(cl.files, id); k < |cl.files| ==> IsFile(cl, k, id)
    ensures var b := FindBuffer(cl.buffers, id); b < |cl.buffers| ==> IsBuffer(cl, b, id)
  {
    var k0, b0 := FindFile(cl.files, id), FindBuffer(cl.buffers, id);
    forall k | IsFile(cl, k, id) && id != 0 ensures k == k0 {
      assert IdAt(cl, k) == id && IdAt(cl, k0) == id;
    }
    forall b | IsBuffer(cl, b, id) && id != 0 ensures b == b0 && k0 == |cl.files| {
      assert IdAt(cl, |cl.files| + b) == id && IdAt(cl, |cl.files| + b0) == id;
      forall m | 0 <= m < |cl.files| ensures cl.files[m].id != id {
        assert IdAt(cl, m) == cl.files[m].id;
      }
    }
  }

  /** The status in terms of what the daemon's searches find. */
  lemma StatusFound(g: Config, cl: Client, id: nat)
    requires ClientOk(g, cl)
    ensures
      var k, b := FindFile(cl.files, id), FindBuffer(cl.buffers, id);
      && (forall j | IsFile(cl, j, id) && id != 0 :: j == k < |cl.files|)
      && (forall j | IsBuffer(cl, j, id) && id != 0 :: j == b < |cl.buffers| && k == |cl.files|)
      && (k < |cl.files| && id != 0 ==> cl.files[k].fd.Some?)
      && ((exists j | 0 <= j < |cl.files| :: IsFile(cl, j, id)) <==> k < |cl.files|)
      && ReleaseStatus(cl, id) ==
           if id == 0 then -EINVAL
           else if k < |cl.files| then (if cl.files[k].inFlight != 0 then -EBUSY else 0)
           else if b < |cl.buffers| then (if cl.buffers[b].inFlight != 0 then -EBUSY else 0)
           else -ENOENT
  {
    SearchesFind(g, cl, id);
    var k, b := FindFile(cl.files, id), FindBuffer(cl.buffers, id);
    if k < |cl.files| { assert IsFile(cl, k, id) && FileOk(cl.open, cl.files[k]); }
    if b < |cl.buffers| { assert IsBuffer(cl, b, id); }
    hide ClientOk;
  }

  /** RELEASE_RESOURCE answers EINVAL, ENOENT or EBUSY exactly for id 0, an unknown id and a
      resource in use, and changes nothing then. Otherwise it answers the id: a file is taken
      out of the table and closed, its slot is free, and so is a buffer's slot; no other slot
      changes. The loop ends if the table cannot be updated or the answer does not fit. */
  lemma {:induction false} ReleaseAnswered(g: Config, s: State, c: nat, id: nat, o: Oracle)
    requires Waits(g, s, c, ReleaseResource(id))
    ensures
      var cl, x, status := s.clients[c], DispatchRequest(g, s, c, o), ReleaseStatus(s.clients[c], id);
      && (x.Running? <==>
            o.fits && (status == 0 && (exists k | 0 <= k < |cl.files| :: IsFile(cl, k, id)) ==> o.update == 0))
      && (x.Running? ==> Replied(s, x.state, c, if status == 0 then id else 0, status))
      && (x.Running? && status != 0 ==>
            && x.state.clients[c] == cl.(request := None)
            && x.state.table == s.table && x.state.ledger == s.ledger && x.state.closed == s.closed)
      && (x.Running? && status == 0 ==>
            && (forall k | IsFile(cl, k, id) ::
                  && x.state.clients[c] == cl.(request := None, files := cl.files[k := FREE_FILE])
                  && x.state.table == s.table - {GlobalFile(g, c, k)}
                  && cl.files[k].fd.Some? && x.state.closed == s.closed + [cl.files[k].fd.value])
            && (forall b | IsBuffer(cl, b, id) ::
                  && x.state.clients[c] == cl.(request := None, buffers := cl.buffers[b := FREE_BUFFER])
                  && x.state.table == s.table && x.state.closed == s.closed))
  {
    hide Inv, ClientOk, Known, Pinned, ReleaseStatus, IsFile, IsBuffer, ReplyResource, DropFile, Replied;
    Sound(g, s, c);
    StatusFound(g, s.clients[c], id);
    var cl, status := s.clients[c], ReleaseStatus(s.clients[c], id);
    var k, b := FindFile(cl.files, id), FindBuffer(cl.buffers, id);
    if status != 0 {
      SameClient(s, c);
      ReplyForm(s, s, c, cl, 0, status, o);
    } else if k < |cl.files| {
      DropForm(g, s, c, k);
      ReplyForm(s, DropFile(g, s, c, k), c, cl.(files := cl.files[k := FREE_FILE]), id, 0, o);
    } else {
      var cl1 := SetBuffer(cl, b, FREE_BUFFER);
      ReplyForm(s, SetClient(s, c, cl1), c, cl1, id, 0, o);
    }
  }

  // ---- REGISTER_FD and REGISTER_BUFFER -----------------------------------------------------------

  /** The first idle file slot. */
  predicate FirstFree(files: seq<FileSlot>, k: int) {
    0 <= k < |files| && IdleFile(files[k]) && forall j | 0 <= j < k :: !IdleFile(files[j])
  }

  predicate FirstFreeBuffer(buffers: seq<BufferSlot>, b: int) {
    0 <= b < |buffers| && IdleBuffer(buffers[b]) && forall j | 0 <= j < b :: !IdleBuffer(buffers[j])
  }

  /** Which status REGISTER_FD answers with; `update` is the table's errno. */
  function RegisterStatus(cl: Client, update: nat): int {
    if cl.received.None? then -EINVAL
    else if forall k | 0 <= k < |cl.files| :: !IdleFile(cl.files[k]) then -EAGAIN
    else if Allocate(cl).id == 0 then -EOVERFLOW
    else -(update as int)
  }

  /** REGISTER_FD answers EINVAL without an fd, EAGAIN without a free slot, EOVERFLOW without
      an id, and the table's error; the fd, if there was one, is closed then and no slot
      changes. */
  lemma {:induction false} RegisterFdRefused(g: Config, s: State, c: nat, o: Oracle)
    requires Waits(g, s, c, RegisterFd) && RegisterStatus(s.clients[c], o.update) != 0
    ensures
      var cl, x := s.clients[c], DispatchRequest(g, s, c, o);
      && (x.Running? <==> o.fits)
      && (x.Running? ==>
            && Replied(s, x.state, c, 0, RegisterStatus(cl, o.update))
            && x.state.clients[c] == cl.(request := None, received := None, nextId := x.state.clients[c].nextId)
            && x.state.table == s.table
            && x.state.closed == if cl.received.Some? then s.closed + [cl.received.value] else s.closed)
  {
    hide Inv, ReplyResource, Allocate, Replied;
    var cl, a := s.clients[c], Allocate(s.clients[c]);
    var taken := cl.(received := None, nextId := a.next);
    if cl.received.None? {
      SameClient(s, c);
      ReplyForm(s, s, c, cl, 0, -EINVAL, o);
    } else {
      var fd := cl.received.value;
      if FirstIdleFile(cl.files) == |cl.files| {
        ReplyForm(s, CloseFd(SetClient(s, c, cl.(received := None)), fd), c, cl.(received := None), 0, -EAGAIN, o);
      } else {
        ReplyForm(s, CloseFd(SetClient(s, c, taken), fd), c, taken, 0, if a.id == 0 then -EOVERFLOW else -(o.update as int), o);
      }
    }
  }

  /** Otherwise the fd goes into the first free slot and the table, under an id not in use,
      which is the id answered. */
  lemma {:induction false} RegisterFdDone(g: Config, s: State, c: nat, o: Oracle)
    requires Waits(g, s, c, RegisterFd) && RegisterStatus(s.clients[c], o.update) == 0
    ensures
      var cl, x, id := s.clients[c], DispatchRequest(g, s, c, o), Allocate(s.clients[c]).id;
      && cl.received.Some? && id != 0 && !IdInUse(cl, id)
      && (x.Running? <==> o.fits)
      && (x.Running? ==>
            && Replied(s, x.state, c, id, 0) && x.state.closed == s.closed
            && forall k | FirstFree(cl.files, k) ::
                 && x.state.clients[c] == cl.(request := None, received := None, nextId := x.state.clients[c].nextId,
                                              files := cl.files[k := FileSlot(id, cl.received, 0, true, false)])
                 && x.state.table == s.table[GlobalFile(g, c, k) := cl.received.value])
  {
    hide Inv, ClientOk, ReplyResource, Allocate, Replied, IdInUse;
    Sound(g, s, c);
    var cl, a := s.clients[c], Allocate(s.clients[c]);
    AllocateSoundly(g, cl);
    var k, fd := FirstIdleFile(cl.files), cl.received.value;
    var cl1 := SetFile(cl.(received := None, nextId := a.next), k, FileSlot(a.id, Some(fd), 0, true, false));
    var s1 := Move(SetClient(s, c, cl1), fd, InSlot(c, k)).(table := s.table[GlobalFile(g, c, k) := fd]);
    ReplyForm(s, s1, c, cl1, a.id, 0, o);
    assert forall j | FirstFree(cl.files, j) :: j == k;
  }

  lemma AllocateSoundly(g: Config, cl: Client)
    requires ClientOk(g, cl)
    ensures var a := Allocate(cl); a.id != 0 ==> !IdInUse(cl, a.id)
  {
    AllocateFromSound(cl, cl.nextId, |cl.files| + |cl.buffers|);
  }

  /** REGISTER_BUFFER answers EAGAIN without a free slot and EOVERFLOW without an id, and
      changes no slot then. Otherwise the first free slot is registered under an id not in
      use, which is the id answered, with the data given as its valid bytes. */
  lemma {:induction false} RegisterBufferAnswered(g: Config, s: State, c: nat, data: seq<Byte>, o: Oracle)
    requires Waits(g, s, c, RegisterBuffer(data))
    ensures
      var cl, x, id := s.clients[c], DispatchRequest(g, s, c, o), Allocate(s.clients[c]).id;
      var full := forall b | 0 <= b < |cl.buffers| :: !IdleBuffer(cl.buffers[b]);
      var status := if full then -EAGAIN else if id == 0 then -EOVERFLOW else 0;
      && (x.Running? <==> o.fits)
      && (x.Running? ==>
            && Replied(s, x.state, c, if status == 0 then id else 0, status)
            && x.state.table == s.table && x.state.ledger == s.ledger && x.state.closed == s.closed)
      && (x.Running? && status != 0 ==>
            x.state.clients[c] == cl.(request := None, nextId := x.state.clients[c].nextId))
      && (x.Running? && status == 0 ==>
            && !IdInUse(cl, id)
            && forall b | FirstFreeBuffer(cl.buffers, b) ::
                 x.state.clients[c] == cl.(request := None, nextId := x.state.clients[c].nextId,
                                           buffers := cl.buffers[b := BufferSlot(id, 0, true, false, |data|)]))
  {
    hide Inv, ClientOk, ReplyResource, Allocate, Replied, IdInUse;
    Sound(g, s, c);
    var cl, a := s.clients[c], Allocate(s.clients[c]);
    AllocateSoundly(g, cl);
    var b := FirstIdleBuffer(cl.buffers);
    var taken := cl.(nextId := a.next);
    if b == |cl.buffers| {
      SameClient(s, c);
      ReplyForm(s, s, c, cl, 0, -EAGAIN, o);
    } else if a.id == 0 {
      ReplyForm(s, SetClient(s, c, taken), c, taken, 0, -EOVERFLOW, o);
    } else {
      var cl1 := SetBuffer(taken, b, BufferSlot(a.id, 0, true, false, |data|));
      ReplyForm(s, SetClient(s, c, cl1), c, cl1, a.id, 0, o);
      assert forall j | FirstFreeBuffer(cl.buffers, j) :: j == b;
    }
  }

  /** GET_STATS and GET_TRACE are answered with one record and change nothing. */
  lemma QueriesAnswered(g: Config, s: State, c: nat, r: Request, o: Oracle)
    requires Waits(g, s, c, r) && (r.GetStats? || r.GetTrace?)
    ensures
      var cl, x := s.clients[c], DispatchRequest(g, s, c, o);
      && (x.Running? <==> o.fits)
      && (x.Running? ==>
            x.state == s.(clients := s.clients[c := cl.(request := None)],
                          logs := s.logs[c := s.logs[c] + [if r.GetStats? then StatsResult else TraceResult]]))
  {
    hide Inv;
  }
}
