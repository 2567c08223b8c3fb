/** The client library's buffers and reading loops, changed in place. Sockets bring their bytes
    in pieces of any size; each method is proved to have the effect of the step function it
    implements. */
module ClientLibrary {
  import opened Protocol
  import opened Wire
  import opened Demux
  import A = Answers

  lemma AnswerSize(s: Lib, fd: int, n: nat)
    requires fd in s.wires
    ensures var r := AnswerStep(s, fd, n).result; r.Failed? || (r.Answered? && |r.bytes| == n)
  {
  }

  class Library {
    var completions: seq<Tagged<Entry>>
    var payloads: seq<Tagged<Stored>>
    /** The bytes each connection still has to bring before it ends. */
    var wires: map<int, seq<Byte>>

    ghost function Abs(): Lib
      reads this
    {
      Lib(completions, payloads, wires)
    }

    constructor (wires: map<int, seq<Byte>>)
      ensures Abs() == Lib([], [], wires)
    {
      completions, payloads := [], [];
      this.wires := wires;
    }

    /** read_full: receive until there are `n` bytes, however they come. */
    method ReadFull(fd: int, n: nat) returns (rc: int, bytes: seq<Byte>)
      requires fd in wires
      modifies this`wires
      ensures
        var w := old(wires[fd]);
        if n <= |w| then rc == 0 && bytes == w[..n] && wires == old(wires)[fd := w[n..]]
        else rc == -EPIPE && wires == old(wires)[fd := []]
    {
      bytes := [];
      ghost var w := wires[fd];
      while |bytes| < n
        invariant |bytes| <= n && |bytes| <= |w| && bytes == w[..|bytes|]
        invariant wires == old(wires)[fd := w[|bytes|..]]
      {
        var left := wires[fd];
        if left == [] {
          rc := -EPIPE;
          return;
        }
        var take: nat :| 1 <= take <= n - |bytes| && take <= |left|;
        bytes := bytes + left[..take];
        wires := wires[fd := left[take..]];
      }
      rc := 0;
    }

    /** peek_protocol_header, waiting for all eight bytes. */
    method PeekHeader(fd: int) returns (rc: int, header: seq<Byte>)
      requires fd in wires
      ensures
        var w := wires[fd];
        if |w| == 0 then rc == -EPIPE
        else if |w| < 8 then rc == -EPROTO
        else rc == 0 && header == w[..8]
    {
      var w := wires[fd];
      header := [];
      if |w| == 0 {
        rc := -EPIPE;
      } else if |w| < 8 {
        rc := -EPROTO;
      } else {
        rc := 0;
        header := w[..8];
      }
    }

    /** read_completion_with_payload */
    method ReadCompletion(fd: int) returns (rc: int, e: Entry)
      requires fd in wires
      modifies this`wires
      ensures
        var w := old(wires[fd]);
        match NextCompletion(w)
        case Cut => rc == -EPIPE && wires == old(wires)[fd := []]
        case Broken => rc == -EPROTO && wires == old(wires)[fd := w[24..]]
        case Next(entry, rest) => rc == 0 && e == entry && wires == old(wires)[fd := rest]
    {
      hide HasHeader, CompletionOk;
      e := Entry(Completion(0, 0, 0, 0), []);
      ghost var w := wires[fd];
      var bytes, payload;
      rc, bytes := ReadFull(fd, 24);
      if rc != 0 {
        return;
      }
      var c := ParseRecord(bytes);
      HeaderLocal(bytes, w);
      if !HasHeader(bytes) || !CompletionOk(c) {
        rc := -EPROTO;
        return;
      }
      if c.payloadLength == 0 {
        e := Entry(c, []);
        return;
      }
      rc, payload := ReadFull(fd, c.payloadLength);
      e := Entry(c, payload);
      assert rc == 0 ==> w[24..][c.payloadLength..] == w[24 + c.payloadLength..];
    }

    /** drain_completion_prefix, with queue_buffered_completion */
    method DrainPrefix(fd: int) returns (rc: int)
      requires fd in wires
      modifies this`wires, this`completions
      ensures
        var d := Drain(old(wires[fd]));
        && rc == d.rc && wires == old(wires)[fd := d.wire]
        && completions == old(completions) + TagAll(fd, d.entries)
    {
      hide NextCompletion, Drain, HasHeader;
      ghost var w, taken: seq<Entry> := wires[fd], [];
      while true
        invariant fd in wires && wires == old(wires)[fd := wires[fd]]
        invariant completions == old(completions) + TagAll(fd, taken)
        invariant var d := Drain(wires[fd]); Drain(w) == d.(entries := taken + d.entries)
        decreases |wires[fd]|
      {
        ghost var now := wires[fd];
        ghost var d := Drain(now);
        DrainOnce(now);
        var header, e;
        rc, header := PeekHeader(fd);
        if rc != 0 {
          assert d == Drained([], now, rc);
          return;
        }
        HeaderLocal(header, now);
        if !HasHeader(header) {
          assert d == Drained([], now, 0);
          return;
        }
        rc, e := ReadCompletion(fd);
        if rc != 0 {
          assert d.entries == [];
          return;
        }
        completions := completions + [Tagged(fd, e)];
        assert TagAll(fd, taken + [e]) == TagAll(fd, taken) + [Tagged(fd, e)];
        assert taken + d.entries == taken + [e] + Drain(wires[fd]).entries;
        taken := taken + [e];
      }
    }

    /** The reading half of a request whose answer has `n` bytes. */
    method Answer(fd: int, n: nat) returns (result: Result)
      requires fd in wires
      modifies this`wires, this`completions
      ensures Done(Abs(), result) == Do(old(Abs()), ReadAnswer(fd, n))
    {
      hide Drain;
      var rc := DrainPrefix(fd);
      if rc != 0 {
        return Failed(rc);
      }
      var bytes;
      rc, bytes := ReadFull(fd, n);
      result := if rc != 0 then Failed(rc) else Answered(bytes);
    }

    /** What a call reports for a verdict. */
    static function Code(v: A.Verdict): int {
      match v
      case Accepted(_) => 0
      case Refused(e) => -e
      case Malformed => -EPROTO
    }

    /** read_submit_result */
    method SubmitResult(fd: int) returns (rc: int, task: nat)
      requires fd in wires
      modifies this`wires, this`completions
      ensures
        var done := Do(old(Abs()), ReadAnswer(fd, 16));
        && Abs() == done.lib
        && match done.result
           case Answered(b) =>
             |b| == 16 && rc == Code(A.SubmitVerdict(b)) && (rc == 0 ==> A.SubmitVerdict(b) == A.Accepted(task))
           case Failed(e) => rc == e
           case _ => false
    {
      hide AnswerStep;
      task := 0;
      AnswerSize(Abs(), fd, 16);
      var result := Answer(fd, 16);
      if result.Failed? {
        return result.rc, 0;
      }
      var ws := Words(result.bytes);
      var id, res := ws[0] + U32 * ws[1], FromSigned(ws[2]);
      var rejection := id == 0 && res < 0;
      if !rejection && !(res == 0 && id != 0 && id < TASK_ID_RESERVED) {
        return -EPROTO, 0;
      }
      if rejection {
        return res, 0;
      }
      return 0, id;
    }

    /** read_resource_result */
    method ResourceResult(fd: int) returns (rc: int, id: nat)
      requires fd in wires
      modifies this`wires, this`completions
      ensures
        var done := Do(old(Abs()), ReadAnswer(fd, 16));
        && Abs() == done.lib
        && match done.result
           case Answered(b) =>
             |b| == 16 && rc == Code(A.ResourceVerdict(b)) && (rc == 0 ==> A.ResourceVerdict(b) == A.Accepted(id))
           case Failed(e) => rc == e
           case _ => false
    {
      hide AnswerStep;
      id := 0;
      AnswerSize(Abs(), fd, 16);
      var result := Answer(fd, 16);
      if result.Failed? {
        return result.rc, 0;
      }
      var ws := Words(result.bytes);
      var res := FromSigned(ws[1]);
      var rejection := ws[0] == 0 && res < 0 && ws[3] == 0;
      if !rejection && !(ws[3] == 0 && res == 0 && ws[0] != 0) {
        return -EPROTO, 0;
      }
      if rejection {
        return res, 0;
      }
      return 0, ws[0];
    }

    /** The events of a trace result, one by one. */
    method TraceEvents(fd: int, count: nat) returns (rc: int, events: seq<seq<Byte>>)
      requires fd in wires
      modifies this`wires
      ensures
        var r := A.ReadEvents(old(wires[fd]), count);
        rc == r.rc && wires == old(wires)[fd := r.wire] && (rc == 0 ==> events == r.events)
    {
      hide A.EventOk;
      events := [];
      ghost var w := wires[fd];
      var index := 0;
      while index < count
        invariant index <= count && fd in wires && wires == old(wires)[fd := wires[fd]]
        invariant
          var r, whole := A.ReadEvents(wires[fd], count - index), A.ReadEvents(w, count);
          whole.rc == r.rc && whole.wire == r.wire && (r.rc == 0 ==> whole.events == events + r.events)
      {
        ghost var now := wires[fd];
        ghost var r := A.ReadEvents(now, count - index);
        var event;
        rc, event := ReadFull(fd, 48);
        if rc != 0 {
          return;
        }
        if !A.EventOk(event) {
          return -EPROTO, [];
        }
        assert r.rc == 0 ==> events + r.events == events + [event] + A.ReadEvents(wires[fd], count - index - 1).events;
        events := events + [event];
        index := index + 1;
      }
      rc := 0;
    }

    /** read_trace_result */
    method TraceResult(fd: int, capacity: nat) returns (rc: int, events: seq<seq<Byte>>)
      requires fd in wires
      modifies this`wires, this`completions
      ensures
        var d := Drain(old(wires[fd]));
        && completions == old(completions) + TagAll(fd, d.entries)
        && if d.rc != 0 then rc == d.rc && wires == old(wires)[fd := d.wire]
           else
             var r := A.ReadTrace(d.wire, capacity);
             rc == r.rc && wires == old(wires)[fd := r.wire] && (rc == 0 ==> events == r.events)
    {
      hide Drain, A.ReadEvents;
      events := [];
      rc := DrainPrefix(fd);
      if rc != 0 {
        return;
      }
      var head;
      rc, head := ReadFull(fd, 24);
      if rc != 0 {
        return;
      }
      var ws := Words(head);
      if ws[5] != 0 {
        return -EPROTO, [];
      }
      if ws[4] > capacity {
        return -EOVERFLOW, [];
      }
      rc, events := TraceEvents(fd, ws[4]);
    }

    /** pop_buffered_completion's search and unlinking */
    method Pop(fd: int) returns (found: bool, e: Entry)
      modifies this`completions
      ensures
        var k := First(old(completions), fd);
        && found == (k < |old(completions)|)
        && completions == (if found then Without(old(completions), k) else old(completions))
        && (found ==> e == old(completions)[k].value)
    {
      found, e := false, Entry(Completion(0, 0, 0, 0), []);
      var k := 0;
      while k < |completions|
        invariant k <= |completions| && !found && completions == old(completions)
        invariant forall i | 0 <= i < k :: completions[i].fd != fd
      {
        if completions[k].fd == fd {
          found, e := true, completions[k].value;
          completions := completions[..k] + completions[k + 1..];
          return;
        }
        k := k + 1;
      }
    }

    /** store_buffered_payload_owned, for a payload that is not empty */
    method Keep(fd: int, e: Entry)
      modifies this`payloads
      ensures Done(Abs(), Completed(e.completion)) == Hand(old(Abs()), fd, e)
    {
      if e.payload != [] {
        payloads := payloads + [Tagged(fd, Stored(e.completion.task, e.payload))];
      }
    }

    /** iouringd_wait_completion */
    method WaitCompletion(fd: int) returns (result: Result)
      requires fd in wires
      modifies this`wires, this`completions, this`payloads
      ensures Done(Abs(), result) == Do(old(Abs()), Wait(fd))
    {
      hide NextCompletion, First;
      var found, e := Pop(fd);
      if !found {
        var rc;
        rc, e := ReadCompletion(fd);
        if rc != 0 {
          return Failed(rc);
        }
      }
      Keep(fd, e);
      result := Completed(e.completion);
    }

    /** iouringd_read_completion_payload */
    method CompletionPayload(fd: int, c: Completion, capacity: nat) returns (result: Result)
      requires fd in wires
      modifies this`payloads
      ensures Done(Abs(), result) == Do(old(Abs()), ReadPayload(fd, c, capacity))
    {
      if c.kind != 4 && c.kind != 6 && c.kind != 8 && c.kind != 12 {
        return Failed(-EINVAL);
      }
      if c.payloadLength == 0 {
        return Paid([]);
      }
      if capacity < c.payloadLength {
        return Failed(-EMSGSIZE);
      }
      var k := 0;
      while k < |payloads|
        invariant k <= |payloads| && payloads == old(payloads)
        invariant forall i | 0 <= i < k :: !IsOf(payloads[i], fd, c.task)
      {
        if payloads[k].fd == fd && payloads[k].value.task == c.task {
          result := Paid(payloads[k].value.payload);
          payloads := payloads[..k] + payloads[k + 1..];
          return;
        }
        k := k + 1;
      }
      result := Failed(-EPROTO);
    }
  }
}
