/** A run on which the resource-id allocator fails although a slot is free: one connection
    registers and releases files until the 32-bit counter has wrapped and comes back to an id
    that is still in use. */
module DaemonWrap {
  import opened Protocol
  import opened DaemonState
  import opened DaemonSteps
  import opened DaemonRuns
  import opened DaemonIds

  const TINY := Config(1, 1, 1, 1, 1, 1, {OpAsyncCancel})
  const FINE := Oracle(true, 0, 0, true)

  lemma {:induction false} ReachesMore(g: Config, s: State, events: seq<Event>, s1: State, e: Event)
    requires Reaches(g, s, events, s1) && Shape(g, s1) && Enabled(g, s1, e) && Step(g, s1, e).Running?
    ensures Reaches(g, s, events + [e], Step(g, s1, e).state)
    decreases |events|
  {
    hide Step, Enabled, Shape;
    if events == [] {
      assert events + [e] == [e] && [e][1..] == [];
    } else {
      ReachesMore(g, Step(g, s, events[0]).state, events[1..], s1, e);
      assert (events + [e])[1..] == events[1..] + [e];
    }
  }

  lemma ReachableMore(g: Config, s: State, e: Event)
    requires Reachable(g, s) && Shape(g, s) && Enabled(g, s, e) && Step(g, s, e).Running?
    ensures Reachable(g, Step(g, s, e).state)
  {
    hide Step, Enabled, Shape;
    var events :| Reaches(g, Initial(g), events, s);
    ReachesMore(g, Initial(g), events, s, e);
  }

  /** The daemon has come to a state with `cl` as its one client. */
  ghost predicate Now(s: State, cl: Client) {
    Reachable(TINY, s) && Shape(TINY, s) && s.clients == [cl]
  }

  /** The client between two requests, with no file, the buffer slot `b` and the counter at `next`. */
  function Resting(generation: nat, next: nat, b: BufferSlot): Client {
    Client(true, generation, true, None, None, 0, 0, next, [FREE_FILE], [b])
  }

  /** One step, seen at its client. */
  lemma Goes(s: State, cl: Client, e: Event) returns (s': State)
    requires Now(s, cl) && Enabled(TINY, s, e) && Step(TINY, s, e).Running?
    requires Shape(TINY, Step(TINY, s, e).state)
    ensures s' == Step(TINY, s, e).state && Reachable(TINY, s')
  {
    hide Step, Enabled, Shape, Reachable;
    s' := Step(TINY, s, e).state;
    ReachableMore(TINY, s, e);
  }

  lemma Arrives(s: State, cl: Client) returns (s': State, fd: Fd)
    requires Now(s, cl) && cl.open && cl.request.None? && cl.received.None?
    ensures Now(s', cl.(received := Some(fd)))
  {
    hide Reachable;
    fd := s.issued;
    s' := Goes(s, cl, FdArrives(0));
  }

  lemma Asks(s: State, cl: Client, r: Request) returns (s': State)
    requires Now(s, cl) && Serving(cl) && cl.request.None? && Deliverable(TINY, r)
    requires cl.received.Some? ==> r.RegisterFd?
    ensures Now(s', cl.(request := Some(r)))
  {
    hide Reachable;
    s' := Goes(s, cl, Parsed(0, r));
  }

  lemma FileRegistered(s: State, cl: Client) returns (s': State)
    requires Now(s, cl) && cl.open && cl.request == Some(RegisterFd) && cl.received.Some?
    requires cl.files == [FREE_FILE] && Allocate(cl).id != 0
    ensures
      var a := Allocate(cl);
      Now(s', cl.(request := None, received := None, nextId := a.next,
                  files := [FileSlot(a.id, cl.received, 0, true, false)]))
  {
    hide Reachable, Allocate;
    assert FirstIdleFile(cl.files) == 0;
    s' := Goes(s, cl, Dispatch(0, FINE));
    var f := FileSlot(Allocate(cl).id, cl.received, 0, true, false);
    assert cl.files[0 := f] == [f];
  }

  lemma FileReleased(s: State, cl: Client, id: nat) returns (s': State)
    requires Now(s, cl) && cl.open && cl.request == Some(ReleaseResource(id)) && id != 0
    requires |cl.files| == 1 && cl.files[0].registered && cl.files[0].id == id && cl.files[0].inFlight == 0
    ensures Now(s', cl.(request := None, files := [FREE_FILE]))
  {
    hide Reachable;
    assert FindFile(cl.files, id) == 0;
    s' := Goes(s, cl, Dispatch(0, FINE));
    assert cl.files[0 := FREE_FILE] == [FREE_FILE];
  }

  lemma BufferRegistered(s: State, cl: Client) returns (s': State)
    requires Now(s, cl) && cl.open && cl.request == Some(RegisterBuffer([]))
    requires cl.buffers == [FREE_BUFFER] && Allocate(cl).id != 0
    ensures
      var a := Allocate(cl);
      Now(s', cl.(request := None, nextId := a.next, buffers := [BufferSlot(a.id, 0, true, false, 0)]))
  {
    hide Reachable, Allocate;
    assert FirstIdleBuffer(cl.buffers) == 0;
    s' := Goes(s, cl, Dispatch(0, FINE));
    var x := BufferSlot(Allocate(cl).id, 0, true, false, 0);
    assert cl.buffers[0 := x] == [x];
  }

  /** What the allocator gives to a client without files. */
  lemma Gives(cl: Client, b: BufferSlot)
    requires cl.files == [FREE_FILE] && cl.buffers == [b] && cl.nextId < U32 - 1 && b.id != cl.nextId
    requires cl.nextId == 0 ==> b.id != 1
    ensures
      var id := if cl.nextId == 0 then 1 else cl.nextId;
      Allocate(cl) == Allocation(id, id + 1)
  {
    var id := if cl.nextId == 0 then 1 else cl.nextId;
    assert !IdInUse(cl, id);
    assert AllocateFrom(cl, id, 1) == Allocation(id, id + 1);
  }

  /** Registering and releasing one file moves the counter on by one, over 0. */
  lemma OneRound(s: State, generation: nat, next: nat, b: BufferSlot) returns (s': State)
    requires Now(s, Resting(generation, next, b)) && next < U32 - 1 && b.id != next && (next == 0 ==> b.id != 1)
    ensures Now(s', Resting(generation, if next == 0 then 2 else next + 1, b))
  {
    hide Now, Allocate;
    var cl := Resting(generation, next, b);
    var s1, fd := Arrives(s, cl);
    var cl1 := cl.(received := Some(fd));
    var s2 := Asks(s1, cl1, RegisterFd);
    var cl2 := cl1.(request := Some(RegisterFd));
    Gives(cl2, b);
    var s3 := FileRegistered(s2, cl2);
    var a := Allocate(cl2);
    var cl3 := cl.(nextId := a.next, files := [FileSlot(a.id, Some(fd), 0, true, false)]);
    var s4 := Asks(s3, cl3, ReleaseResource(a.id));
    s' := FileReleased(s4, cl3.(request := Some(ReleaseResource(a.id))), a.id);
  }

  /** Round after round, up to the last id. */
  lemma {:induction false} Climb(s: State, generation: nat, next: nat, b: BufferSlot) returns (s': State)
    requires Now(s, Resting(generation, next, b)) && 1 <= next <= U32 - 1 && (b.id == 0 || b.id == U32 - 1)
    ensures Now(s', Resting(generation, U32 - 1, b))
    decreases U32 - next
  {
    hide Now;
    if next == U32 - 1 {
      s' := s;
    } else {
      var s1 := OneRound(s, generation, next, b);
      s' := Climb(s1, generation, next + 1, b);
    }
  }

  /** The first connection and its handshake. */
  lemma Begins() returns (s: State, generation: nat)
    ensures Now(s, Resting(generation, 1, FREE_BUFFER))
  {
    var s0 := Initial(TINY);
    assert Reaches(TINY, s0, [], s0);
    var s1 := OpenClient(TINY, s0);
    generation := s1.clients[0].generation;
    assert FreshClient(TINY, generation).files == [FREE_FILE];
    assert FreshClient(TINY, generation).buffers == [FREE_BUFFER];
    ReachableMore(TINY, s0, Event.Connect);
    s := Greets(s1, Resting(generation, 1, FREE_BUFFER).(submit := false));
  }

  lemma Greets(s: State, cl: Client) returns (s': State)
    requires Now(s, cl) && cl.open && !cl.submit
    ensures Now(s', cl.(submit := true))
  {
    hide Reachable;
    s' := Goes(s, cl, Handshake(0, true, true));
  }

  /** A free slot alone does not guarantee an id: the daemon can come to a state with a file
      slot free in which the allocator fails. */
  lemma AllocationCanFail()
    ensures exists s: State ::
      && Reachable(TINY, s) && |s.clients| == 1 && |s.clients[0].files| == 1
      && IdleFile(s.clients[0].files[0]) && Allocate(s.clients[0]).id == 0
  {
    hide Reachable, Shape;
    var last: nat := U32 - 1;
    var s0, generation := Begins();
    var s1 := Climb(s0, generation, 1, FREE_BUFFER);
    var cl := Resting(generation, last, FREE_BUFFER);
    var s2 := Asks(s1, cl, RegisterBuffer([]));
    LastId(cl.(request := Some(RegisterBuffer([]))));
    var s3 := BufferRegistered(s2, cl.(request := Some(RegisterBuffer([]))));
    var b := BufferSlot(last, 0, true, false, 0);
    assert s3.clients == [Resting(generation, 0, b)];
    var s4 := OneRound(s3, generation, 0, b);
    var s5 := Climb(s4, generation, 2, b);
    NoneLeft(Resting(generation, last, b), b);
    assert s5.clients[0] == Resting(generation, last, b);
  }

  lemma LastId(cl: Client)
    requires cl.files == [FREE_FILE] && cl.buffers == [FREE_BUFFER] && cl.nextId == U32 - 1
    ensures Allocate(cl) == Allocation(U32 - 1, 0)
  {
    assert !IdInUse(cl, U32 - 1);
    assert Wrap32(U32) == 0;
  }

  lemma NoneLeft(cl: Client, b: BufferSlot)
    requires cl.files == [FREE_FILE] && cl.buffers == [b] && cl.nextId == U32 - 1 && b.id == U32 - 1 && b.registered
    ensures Allocate(cl).id == 0
  {
    var last: nat := U32 - 1;
    assert IdInUse(cl, last) by { assert cl.buffers[0].id == last; }
    assert Candidate(last, 0) == last && Candidate(last, 1) == 0;
    AllocateFails(cl, last, 2);
    assert forall j | 0 <= j < 2 :: Refused(cl, Candidate(last, j));
  }
}
