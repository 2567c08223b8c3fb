/** Runs of NOPs: one on which a CANCEL is refused because the task it is to cancel holds the
    last task slot, and one that reaches any task id, the one that looks like a header too. */
module DaemonNops {
  import opened Protocol
  import opened DaemonState
  import opened DaemonSteps
  import opened DaemonRuns
  import opened DaemonWrap
  import opened DaemonAnswers
  import Demux

  /** Nothing is in flight, and `id` is the next task id. */
  ghost predicate Quiet(s: State, cl: Client, id: nat) {
    && Now(s, cl) && s.tasks == [IDLE_TASK] && s.nextTaskId == id
    && s.outstanding == 0 && s.outstandingCredit == 0 && |s.logs| == 1
  }

  function NopTask(cl: Client, id: nat): Task {
    IDLE_TASK.(active := true, credit := true, id := id, kind := KNop, client := 0, generation := cl.generation)
  }

  /** The client record while its NOP is in flight. */
  function Waiting(cl: Client): Client {
    cl.(outstanding := 1, outstandingCredit := 1)
  }

  /** A NOP with task id `id` is in flight. */
  ghost predicate Busy(s: State, cl: Client, id: nat) {
    && Now(s, cl) && s.tasks == [NopTask(cl, id)] && s.nextTaskId == id + 1
    && s.outstanding == 1 && s.outstandingCredit == 1 && |s.logs| == 1
    && id in s.ops && s.ops[id] == Op(0, None)
  }

  predicate Calm(cl: Client) {
    Serving(cl) && cl.request.None? && cl.received.None? && cl.outstanding == 0 && cl.outstandingCredit == 0
  }

  lemma Begin() returns (s: State, cl: Client)
    ensures Quiet(s, cl, 1) && Calm(cl)
  {
    hide Reachable;
    var s0 := Initial(TINY);
    assert Reachable(TINY, s0) by { Start(); }
    var s1 := OpenClient(TINY, s0);
    ReachableMore(TINY, s0, Event.Connect);
    cl := s1.clients[0];
    assert s1.clients == [cl];
    s := Goes(s1, cl, Handshake(0, true, true));
    cl := cl.(submit := true);
    assert s.tasks == [IDLE_TASK];
  }

  lemma Start()
    ensures Reachable(TINY, Initial(TINY))
  {
    assert Reaches(TINY, Initial(TINY), [], Initial(TINY));
  }

  lemma NopAsked(s: State, cl: Client, id: nat) returns (s': State)
    requires Quiet(s, cl, id) && Calm(cl)
    ensures Quiet(s', cl.(request := Some(Nop)), id) && s'.logs == s.logs
  {
    hide Reachable;
    s' := Goes(s, cl, Parsed(0, Nop));
  }

  lemma NopAdmitted(s: State, cl: Client, id: nat) returns (s': State)
    requires Quiet(s, cl.(request := Some(Nop)), id) && Calm(cl) && id < TASK_ID_RESERVED
    ensures Busy(s', Waiting(cl), id) && s'.logs == [s.logs[0] + [SubmitResult(id, 0)]]
  {
    hide Reachable;
    assert FirstIdleTask(s.tasks) == 0;
    s' := Goes(s, cl.(request := Some(Nop)), Dispatch(0, FINE));
    assert s.tasks[0 := NopTask(cl, id)] == [NopTask(cl, id)];
  }

  lemma NopCompleted(s: State, cl: Client, id: nat) returns (s': State)
    requires Busy(s, Waiting(cl), id) && Calm(cl)
    ensures Quiet(s', cl, id + 1)
  {
    hide Reachable;
    var q := Cqe(0, 0, true, 0, true);
    assert FindTask(s.tasks, id) == 0;
    s' := Goes(s, Waiting(cl), Reap(id, q));
    assert s.tasks[0 := IDLE_TASK] == [IDLE_TASK];
  }

  /** Task ids go up one by one, to any number below the reserved ones. */
  lemma {:induction false} CountUp(s: State, cl: Client, id: nat, goal: nat) returns (s': State)
    requires Quiet(s, cl, id) && Calm(cl) && id <= goal < TASK_ID_RESERVED
    ensures Quiet(s', cl, goal)
    decreases goal - id
  {
    hide Quiet, Busy, Calm;
    if id == goal {
      s' := s;
    } else {
      var s1 := NopAsked(s, cl, id);
      var s2 := NopAdmitted(s1, cl, id);
      var s3 := NopCompleted(s2, cl, id);
      s' := CountUp(s3, cl, id + 1, goal);
    }
  }

  /** The daemon can come to acknowledge a task with any id; with HEADER_NUMBER the answer is
      one that the library never returns. */
  lemma AnyIdAcknowledged(id: nat)
    requires 0 < id < TASK_ID_RESERVED
    ensures exists s: State :: Reachable(TINY, s) && |s.logs| == 1 && SubmitResult(id, 0) in s.logs[0]
    ensures 0 < Demux.HEADER_NUMBER < TASK_ID_RESERVED
  {
    hide Reachable;
    var s0, cl := Begin();
    var s1 := CountUp(s0, cl, 1, id);
    var s2 := NopAsked(s1, cl, id);
    var s3 := NopAdmitted(s2, cl, id);
    assert SubmitResult(id, 0) in s3.logs[0];
  }

  /** A CANCEL of a task in flight can be refused for want of a task slot, although the ring
      has an entry to spare and the checks on entry let it pass. */
  lemma CancelCanBeRefused()
    ensures exists s: State ::
      && Reachable(TINY, s) && |s.clients| == |s.logs| == 1
      && s.clients[0].request == Some(Cancel(1)) && 1 in s.ops
      && s.outstanding < TINY.taskCapacity + 1 && AdmissionError(TINY, s, s.clients[0], Cancel(1)) == 0
      && Queued(TINY, s, 0, FINE, SubmitResult(0, -EAGAIN))
  {
    hide Reachable;
    var s0, cl := Begin();
    var s1 := NopAsked(s0, cl, 1);
    var s2 := NopAdmitted(s1, cl, 1);
    var s3 := Goes(s2, Waiting(cl), Parsed(0, Cancel(1)));
    assert FirstIdleTask(s3.tasks) == 1;
    assert Queued(TINY, s3, 0, FINE, SubmitResult(0, -EAGAIN));
  }
}
