/** What the library makes of an answer once its bytes have been told from completions. */
module Answers {
  import opened Protocol
  import opened Wire
  import D = Demux
  import Trace

  /** Accepted, with the id given; refused, with an errno; or not an answer at all. */
  datatype Verdict = Accepted(id: nat) | Refused(error: int) | Malformed

  /** submit_result_is_rejection, submit_result_is_valid */
  function SubmitVerdict(b: seq<Byte>): Verdict
    requires |b| == 16
  {
    var ws := Words(b);
    var task, res := ws[0] + U32 * ws[1], FromSigned(ws[2]);
    if task == 0 && res < 0 then Refused(-res)
    else if res == 0 && 0 < task < TASK_ID_RESERVED then Accepted(task)
    else Malformed
  }

  /** resource_result_is_rejection, resource_result_is_valid */
  function ResourceVerdict(b: seq<Byte>): Verdict
    requires |b| == 16
  {
    var ws := Words(b);
    var id, res := ws[0], FromSigned(ws[1]);
    if ws[3] != 0 then Malformed
    else if id == 0 && res < 0 then Refused(-res)
    else if res == 0 && id != 0 then Accepted(id)
    else Malformed
  }

  /** A submit result is understood as it was meant. */
  lemma {:induction false} SubmitUnderstood(id: nat, res: int, credits: Word)
    requires id < U64 && -(U32 / 2) <= res < U32 / 2
    ensures
      SubmitVerdict(Bytes([Low(id), High(id), Signed(res), credits])) ==
        if id == 0 && res < 0 then Refused(-res)
        else if res == 0 && 0 < id < TASK_ID_RESERVED then Accepted(id)
        else Malformed
  {
    WordsOfBytes([Low(id), High(id), Signed(res), credits]);
    assert id == U32 * (id / U32) + id % U32;
  }

  lemma {:induction false} ResourceUnderstood(id: Word, res: int, available: Word)
    requires -(U32 / 2) <= res < U32 / 2
    ensures
      ResourceVerdict(Bytes([id, Signed(res), available, 0])) ==
        if id == 0 && res < 0 then Refused(-res)
        else if res == 0 && id != 0 then Accepted(id)
        else Malformed
  {
    WordsOfBytes([id, Signed(res), available, 0]);
  }

  // ---- trace results ---------------------------------------------------------------------------

  /** trace_event_is_valid */
  predicate EventOk(b: seq<Byte>)
    requires |b| == 48
  {
    var ws := Words(b);
    && 1 <= ws[9] % U16 <= 5
    && ws[9] / U16 < 15
    && ws[10] / U16 <= 2
    && ws[11] == 0
  }

  /** The fields of a trace event fit their places. */
  predicate EventFits(e: Trace.Event) {
    && e.sequence < U64 && e.fields.timestamp < U64 && e.fields.task < U64
    && e.fields.resource < U32 && -(U32 / 2) <= e.fields.res < U32 / 2 && e.fields.credits < U32
    && e.fields.kind < U16 && e.fields.taskKind < U16 && e.fields.client < U16 && e.fields.priority < U16
  }

  /** A trace event as the daemon sends it. */
  function EventBytes(e: Trace.Event): (b: seq<Byte>)
    requires EventFits(e)
    ensures |b| == 48
  {
    var f := e.fields;
    Bytes([Low(e.sequence), High(e.sequence), Low(f.timestamp), High(f.timestamp), Low(f.task), High(f.task),
           f.resource, Signed(f.res), f.credits, Pair(f.kind, f.taskKind), Pair(f.client, f.priority), 0])
  }

  /** The library takes a trace event exactly if it is of one of the five kinds, about a known
      kind of task or none, and with a known priority. */
  lemma {:induction false} EventTaken(e: Trace.Event)
    requires EventFits(e)
    ensures EventOk(EventBytes(e)) <==> 1 <= e.fields.kind <= 5 && e.fields.taskKind <= 14 && e.fields.priority <= 2
  {
    var f := e.fields;
    WordsOfBytes([Low(e.sequence), High(e.sequence), Low(f.timestamp), High(f.timestamp), Low(f.task), High(f.task),
                  f.resource, Signed(f.res), f.credits, Pair(f.kind, f.taskKind), Pair(f.client, f.priority), 0]);
  }

  /** The events read, each 48 bytes; what is left of the stream; and the error if any. */
  datatype TraceRead = TraceRead(rc: int, events: seq<seq<Byte>>, wire: seq<Byte>)

  function ReadEvents(w: seq<Byte>, n: nat): TraceRead {
    if n == 0 then TraceRead(0, [], w)
    else if |w| < 48 then TraceRead(-D.EPIPE, [], [])
    else if !EventOk(w[..48]) then TraceRead(-EPROTO, [], w[48..])
    else var rest := ReadEvents(w[48..], n - 1); rest.(events := [w[..48]] + rest.events)
  }

  /** read_trace_result behind the completions, for a caller with room for `capacity` events */
  function ReadTrace(w: seq<Byte>, capacity: nat): TraceRead {
    if |w| < 24 then TraceRead(-D.EPIPE, [], [])
    else
      var ws := Words(w[..24]);
      if ws[5] != 0 then TraceRead(-EPROTO, [], w[24..])
      else if ws[4] > capacity then TraceRead(-EOVERFLOW, [], w[24..])
      else ReadEvents(w[24..], ws[4])
  }

  function Joined(events: seq<seq<Byte>>): seq<Byte> {
    if events == [] then [] else events[0] + Joined(events[1..])
  }

  lemma {:induction false} EventsSplit(w: seq<Byte>, n: nat)
    requires ReadEvents(w, n).rc == 0
    ensures
      var r := ReadEvents(w, n);
      |r.events| == n && |Joined(r.events)| == 48 * n && w == Joined(r.events) + r.wire
  {
    hide EventOk;
    if n != 0 {
      EventsSplit(w[48..], n - 1);
      var r := ReadEvents(w, n);
      assert r.events[1..] == ReadEvents(w[48..], n - 1).events;
      assert w == w[..48] + w[48..];
    }
  }

  /** A trace result that is read piece by piece is one answer: the same bytes are taken, and
      they are the head and the events announced in it. */
  lemma {:induction false} TraceIsOneAnswer(s: D.Lib, fd: int, capacity: nat)
    requires fd in s.wires && D.Drain(s.wires[fd]).rc == 0
    requires ReadTrace(D.Drain(s.wires[fd]).wire, capacity).rc == 0
    ensures
      var w := D.Drain(s.wires[fd]).wire;
      var r := ReadTrace(w, capacity);
      var done := D.AnswerStep(s, fd, 24 + 48 * |r.events|);
      && |w| >= 24 && |r.events| == Words(w[..24])[4] <= capacity
      && done.result == D.Answered(w[..24] + Joined(r.events))
      && done.lib.wires[fd] == r.wire
  {
    hide D.Drain, ReadEvents, Joined;
    var w := D.Drain(s.wires[fd]).wire;
    var n := Words(w[..24])[4];
    EventsSplit(w[24..], n);
    var r := ReadTrace(w, capacity);
    assert w == w[..24] + w[24..];
    assert w == (w[..24] + Joined(r.events)) + r.wire;
  }
}
