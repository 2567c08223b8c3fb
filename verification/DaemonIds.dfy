/** When the resource-id allocator succeeds. */
module DaemonIds {
  import opened Protocol
  import opened DaemonState
  import opened DaemonInvariant
  import opened DaemonRuns
  import opened DaemonTheorems

  /** The id tried at the `j`-th attempt. */
  function Candidate(next: nat, j: nat): nat {
    Wrap32(next + j)
  }

  predicate Refused(cl: Client, id: nat) {
    id == 0 || IdInUse(cl, id)
  }

  /** The allocator gives up exactly when it refuses every candidate of its window. */
  lemma {:induction false} AllocateFails(cl: Client, next: nat, attempts: nat)
    requires next < U32
    ensures AllocateFrom(cl, next, attempts).id == 0 <==>
            forall j | 0 <= j < attempts :: Refused(cl, Candidate(next, j))
    decreases attempts
  {
    if attempts != 0 {
      assert Candidate(next, 0) == next;
      if Refused(cl, next) {
        var after := Wrap32(next + 1);
        AllocateFails(cl, after, attempts - 1);
        forall j: nat ensures Candidate(after, j) == Candidate(next, j + 1) { }
        forall j | 0 <= j < attempts
          ensures Refused(cl, Candidate(next, j)) || exists i | 0 <= i < attempts - 1 :: !Refused(cl, Candidate(after, i))
        {
          if j > 0 { assert Candidate(after, j - 1) == Candidate(next, j); }
        }
      }
    }
  }

  function UsedIds(cl: Client, n: nat): set<nat>
    requires n <= |cl.files| + |cl.buffers|
  {
    if n == 0 then {}
    else UsedIds(cl, n - 1) + (if IdAt(cl, n - 1) == 0 then {} else {IdAt(cl, n - 1)})
  }

  lemma {:induction false} UsedIdsSize(cl: Client, n: nat, free: nat)
    requires n <= |cl.files| + |cl.buffers| && free < |cl.files| + |cl.buffers| && IdAt(cl, free) == 0
    ensures |UsedIds(cl, n)| <= (if free < n then n - 1 else n)
    ensures forall m | 0 <= m < n && IdAt(cl, m) != 0 :: IdAt(cl, m) in UsedIds(cl, n)
  {
    if n != 0 { UsedIdsSize(cl, n - 1, free); }
  }

  function Window(next: nat, n: nat): set<nat> {
    if n == 0 then {} else Window(next, n - 1) + {Candidate(next, n - 1)}
  }

  lemma CandidatesDiffer(next: nat, i: nat, j: nat)
    requires i < j < i + U32
    ensures Candidate(next, i) != Candidate(next, j)
  {
    var x, y := next + i, next + j;
    assert x == U32 * (x / U32) + x % U32 && y == U32 * (y / U32) + y % U32;
  }

  lemma {:induction false} WindowSize(next: nat, n: nat)
    requires next < U32 && n <= U32
    ensures |Window(next, n)| == n
    ensures forall x | x in Window(next, n) :: exists j | 0 <= j < n :: x == Candidate(next, j)
  {
    hide Candidate;
    if n != 0 {
      WindowSize(next, n - 1);
      forall j | 0 <= j < n - 1 ensures Candidate(next, j) != Candidate(next, n - 1) {
        CandidatesDiffer(next, j, n - 1);
      }
      forall x | x in Window(next, n) ensures exists j | 0 <= j < n :: x == Candidate(next, j) {
        if x in Window(next, n - 1) {
          var j :| 0 <= j < n - 1 && x == Candidate(next, j);
        } else {
          assert x == Candidate(next, n - 1);
        }
      }
    }
  }

  lemma SubsetSize(a: set<nat>, b: set<nat>)
    requires a <= b
    ensures |a| <= |b|
  {
    assert |b| == |a| + |b - a| by { assert b == a + (b - a); }
  }

  lemma InUseIsUsed(g: Config, cl: Client, id: nat, free: nat)
    requires ClientOk(g, cl) && id != 0 && IdInUse(cl, id)
    requires free < |cl.files| + |cl.buffers| && IdAt(cl, free) == 0
    ensures id in UsedIds(cl, |cl.files| + |cl.buffers|)
  {
    UsedIdsSize(cl, |cl.files| + |cl.buffers|, free);
    if k :| 0 <= k < |cl.files| && cl.files[k].id == id && !IdleFile(cl.files[k]) {
      assert IdAt(cl, k) == id;
    } else {
      var b :| 0 <= b < |cl.buffers| && cl.buffers[b].id == id && !IdleBuffer(cl.buffers[b]);
      assert IdAt(cl, |cl.files| + b) == id;
    }
  }

  /** The window cannot consist of ids in use if a slot is free: by counting. */
  lemma SomeCandidateUnused(g: Config, cl: Client, free: nat)
    requires ClientOk(g, cl) && ConfigOk(g)
    requires |cl.files| == g.fileSlots && |cl.buffers| == g.bufferSlots
    requires free < |cl.files| + |cl.buffers| && IdAt(cl, free) == 0
    ensures exists j | 0 <= j < |cl.files| + |cl.buffers| ::
              Candidate(cl.nextId, j) == 0 || !IdInUse(cl, Candidate(cl.nextId, j))
  {
    hide Candidate, Window, UsedIds, IdInUse;
    var n := |cl.files| + |cl.buffers|;
    if forall j | 0 <= j < n :: Candidate(cl.nextId, j) != 0 && IdInUse(cl, Candidate(cl.nextId, j)) {
      WindowSize(cl.nextId, n);
      UsedIdsSize(cl, n, free);
      forall x | x in Window(cl.nextId, n) ensures x in UsedIds(cl, n) {
        var j :| 0 <= j < n && x == Candidate(cl.nextId, j);
        InUseIsUsed(g, cl, x, free);
      }
      SubsetSize(Window(cl.nextId, n), UsedIds(cl, n));
    }
  }

  /** With a slot free, allocation fails exactly when the window reaches over 0 and every
      other candidate in it is in use; away from the wrap-around it always succeeds. */
  lemma AllocationFailsOnlyAtWrap(g: Config, s: State, c: nat, free: nat)
    requires Reachable(g, s) && c < |s.clients|
    requires free < |s.clients[c].files| + |s.clients[c].buffers| && IdAt(s.clients[c], free) == 0
    ensures
      var cl := s.clients[c];
      var n := |cl.files| + |cl.buffers|;
      Allocate(cl).id == 0 <==>
        && (exists j | 0 <= j < n :: Candidate(cl.nextId, j) == 0)
        && (forall j | 0 <= j < n && Candidate(cl.nextId, j) != 0 :: IdInUse(cl, Candidate(cl.nextId, j)))
  {
    hide Reachable;
    var cl := s.clients[c];
    ClientFacts(g, s, c);
    ReachableShape(g, s);
    AllocateFails(cl, cl.nextId, |cl.files| + |cl.buffers|);
    SomeCandidateUnused(g, cl, free);
  }

  lemma ReachableShape(g: Config, s: State)
    requires Reachable(g, s)
    ensures Shape(g, s)
  {
    hide ClientsOk, OpsOk, TableOk, LedgerOk, SessionsOk, TasksOk, Counted;
    ReachableInv(g, s);
  }
}
