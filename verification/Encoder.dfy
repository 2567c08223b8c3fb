/** The client library's request encoders and the socket writes under them: a request leaves
    whole or the call fails, and the daemon reads back the request that was meant. */
module Encoder {
  import opened Protocol
  import opened Wire
  import opened Decoder
  import opened Parser
  import DaemonSteps
  import DaemonState

  const EPIPE := 32

  /** What the encoders let through; anything else is EINVAL and nothing is sent. */
  predicate LibraryAccepts(r: Request) {
    Fits(r) &&
    match r
    case SockRead(i, n) => i != 0 && n != 0
    case SockWrite(i, d) => i != 0 && d != []
    case FileRead(i, n) => i != 0 && n != 0
    case FileWrite(i, d) => i != 0 && d != []
    case SockReadFixed(i, j, n) => i != 0 && j != 0 && n != 0
    case SockWriteFixed(i, j, n) => i != 0 && j != 0 && n != 0
    case Poll(i, m) => i != 0 && m != 0
    case Connect(i, d) => i != 0 && 0 < |d| < U16
    case Accept(i, n) => i != 0 && n < U16
    case Openat(_, _, d) => IsPath(d) && |d| <= 4096
    case Close(i) => i != 0
    case ReleaseResource(i) => i != 0
    case RegisterBuffer(d) => |d| <= 4096
    case _ => true
  }

  /** A non-empty C string with its terminator. */
  predicate IsPath(d: seq<Byte>) {
    |d| >= 2 && forall k | 0 <= k < |d| :: d[k] == 0 <==> k == |d| - 1
  }

  // ---- filling in the structures -----------------------------------------------------------------

  /** A cleared structure of `size` words with its header: init_submit_header and
      init_control_header. */
  method Cleared(code: nat, size: nat) returns (ws: seq<Word>)
    requires code < U16 && size >= 4
    ensures |ws| == size && ws[..4] == [MAGIC, VERSION, Pair(code, 0), 0]
    ensures forall k | 4 <= k < size :: ws[k] == 0
  {
    ws := seq(size, _ => 0);
    ws := ws[0 := MAGIC];
    ws := ws[1 := VERSION];
    ws := ws[2 := code];
  }

  /** Two words one after the other. */
  function Put2(ws: seq<Word>, k: nat, a: Word, b: Word): seq<Word>
    requires k + 1 < |ws|
  {
    ws[k := a][k + 1 := b]
  }

  lemma Filled(ws: seq<Word>, r: Request)
    requires Fits(r) && |ws| == 4 + |Fields(r)| && ws[..4] == [MAGIC, VERSION, Pair(Code(r), 0), 0]
    requires forall k | 4 <= k < |ws| :: ws[k] == Fields(r)[k - 4]
    ensures ws == FixedPart(0, r)
  {
    hide Fields, Code;
    assert forall k | 0 <= k < 4 :: ws[k] == ws[..4][k];
  }

  /** The encoders for operations on a file: argument checks, then the structure. */
  method FillFileTask(r: Request) returns (rc: int, ws: seq<Word>)
    requires Fits(r) && !IsControl(r) && NamesFile(KindOf(r))
    ensures rc == if LibraryAccepts(r) then 0 else -EINVAL
    ensures rc == 0 ==> ws == FixedPart(0, r)
  {
    rc, ws := -EINVAL, [];
    match r {
      case SockRead(i, n) =>
        if i == 0 || n == 0 { return; }
        ws := Cleared(4, 6);
        ws := Put2(ws, 4, i, n);
      case SockWrite(i, d) =>
        if i == 0 || |d| == 0 { return; }
        ws := Cleared(5, 6);
        ws := Put2(ws, 4, i, |d|);
      case FileRead(i, n) =>
        if i == 0 || n == 0 { return; }
        ws := Cleared(8, 6);
        ws := Put2(ws, 4, i, n);
      case FileWrite(i, d) =>
        if i == 0 || |d| == 0 { return; }
        ws := Cleared(9, 6);
        ws := Put2(ws, 4, i, |d|);
      case Poll(i, m) =>
        if i == 0 || m == 0 { return; }
        ws := Cleared(10, 6);
        ws := Put2(ws, 4, i, m);
      case Connect(i, d) =>
        if i == 0 || |d| == 0 || |d| >= U16 { return; }
        ws := Cleared(11, 6);
        ws := Put2(ws, 4, i, |d|);
      case Accept(i, n) =>
        if i == 0 || n >= U16 { return; }
        ws := Cleared(12, 6);
        ws := Put2(ws, 4, i, n);
      case Close(i) =>
        if i == 0 { return; }
        ws := Cleared(14, 6);
        ws := ws[4 := i];
      case SockReadFixed(i, j, n) =>
        if i == 0 || j == 0 || n == 0 { return; }
        ws := Cleared(6, 7);
        ws := Put2(ws, 4, i, j)[6 := n];
      case SockWriteFixed(i, j, n) =>
        if i == 0 || j == 0 || n == 0 { return; }
        ws := Cleared(7, 7);
        ws := Put2(ws, 4, i, j)[6 := n];
    }
    rc := 0;
    Filled(ws, r);
  }

  /** Whether the caller of GET_TRACE has room for the events it asks for. */
  predicate RoomForEvents(r: Request, capacity: nat) {
    r.GetTrace? && r.max != 0 ==> capacity >= r.max
  }

  /** The other encoders; `capacity` matters to GET_TRACE only. */
  method FillOther(r: Request, capacity: nat) returns (rc: int, ws: seq<Word>)
    requires Fits(r) && (IsControl(r) || !NamesFile(KindOf(r)))
    ensures rc == if LibraryAccepts(r) && RoomForEvents(r, capacity) then 0 else -EINVAL
    ensures rc == 0 ==> ws == FixedPart(0, r)
  {
    rc, ws := -EINVAL, [];
    match r {
      case Nop =>
        ws := Cleared(1, 4);
      case Timeout(n) =>
        ws := Cleared(2, 6);
        ws := Put2(ws, 4, Low(n), High(n));
      case Cancel(t) =>
        ws := Cleared(3, 6);
        ws := Put2(ws, 4, Low(t), High(t));
      case Openat(flags, mode, d) =>
        if !IsPath(d) || |d| > 4096 { return; }
        ws := Cleared(13, 7);
        ws := Put2(ws, 4, Signed(flags), mode)[6 := |d|];
      case RegisterFd =>
        ws := Cleared(256, 4);
      case RegisterBuffer(d) =>
        if |d| > 4096 { return; }
        ws := Cleared(258, 6);
        ws := ws[4 := |d|];
      case ReleaseResource(i) =>
        if i == 0 { return; }
        ws := Cleared(257, 6);
        ws := ws[4 := i];
      case GetStats =>
        ws := Cleared(259, 4);
      case GetTrace(a, m) =>
        if m != 0 && capacity < m { return; }
        ws := Cleared(260, 8);
        ws := Put2(ws, 4, Low(a), High(a))[6 := m];
    }
    rc := 0;
    Filled(ws, r);
  }

  // ---- the socket ------------------------------------------------------------------------------

  /** What send(2) may answer. */
  datatype Send = Sent(n: nat) | Interrupted | Failed(error: int)

  /** How many bytes have left, and what the call returns. */
  datatype Sending = Sending(count: nat, rc: int)

  /** Sending `n` bytes against the socket's answers, until they have left or an error. When
      the answers run out the peer is taken to be gone. */
  function Sends(n: nat, answers: seq<Send>): (s: Sending)
    ensures s.count <= n
    decreases |answers|
  {
    if n == 0 then Sending(0, 0)
    else if answers == [] then Sending(0, -EPIPE)
    else
      match answers[0]
      case Interrupted => Sends(n, answers[1..])
      case Failed(e) => Sending(0, -e)
      case Sent(k) =>
        var taken := if k <= n then k else n;
        if taken == 0 then Sending(0, -EPIPE)
        else var rest := Sends(n - taken, answers[1..]); rest.(count := taken + rest.count)
  }

  /** One sendmsg that must take everything. */
  function SendsOnce(n: nat, answers: seq<Send>): Sending {
    if answers == [] then Sending(0, -EPIPE)
    else
      match answers[0]
      case Interrupted => SendsOnce(n, answers[1..])
      case Failed(e) => Sending(0, -e)
      case Sent(k) => if k == 0 || n == 0 then Sending(0, -EPIPE) else if k < n then Sending(k, -EPROTO) else Sending(n, 0)
  }

  /** The call succeeds exactly if all bytes have left. */
  lemma {:induction false} SuccessIsAll(n: nat, answers: seq<Send>)
    requires n > 0 && forall a | a in answers && a.Failed? :: a.error > 0
    ensures Sends(n, answers).rc == 0 <==> Sends(n, answers).count == n
    ensures SendsOnce(n, answers).rc == 0 <==> SendsOnce(n, answers).count == n
    ensures Sends(n, answers).rc <= 0 && SendsOnce(n, answers).rc <= 0
    decreases |answers|
  {
    if answers != [] {
      assert forall a | a in answers[1..] :: a in answers;
      match answers[0]
      case Interrupted => SuccessIsAll(n, answers[1..]);
      case Failed(_) => assert answers[0] in answers;
      case Sent(k) =>
        if 0 < k < n { SuccessIsAll(n - k, answers[1..]); }
    }
  }

  lemma SendsNext(n: nat, answers: seq<Send>)
    ensures
      var s := Sends(n, answers);
      if n == 0 then s == Sending(0, 0)
      else if answers == [] then s == Sending(0, -EPIPE)
      else match answers[0]
           case Interrupted => s == Sends(n, answers[1..])
           case Failed(e) => s == Sending(0, -e)
           case Sent(k) =>
             var taken := if k <= n then k else n;
             if taken == 0 then s == Sending(0, -EPIPE)
             else s == Sends(n - taken, answers[1..]).(count := taken + Sends(n - taken, answers[1..]).count)
  {
  }

  /** What is left of the two parts is what follows the bytes already taken. */
  lemma Continues(before: seq<Byte>, first: seq<Byte>, second: seq<Byte>, i: nat, j: nat, taken: nat)
    requires i <= |first| && j <= |second| && (i < |first| ==> j == 0) && i + j + taken <= |first| + |second|
    ensures
      var all := first + second;
      before + all[..i + j] + (first[i..] + second[j..])[..taken] == before + all[..i + j + taken]
  {
    var all := first + second;
    assert first[i..] + second[j..] == all[i + j..];
    assert all[i + j..][..taken] == all[i + j..i + j + taken];
    assert all[..i + j] + all[i + j..i + j + taken] == all[..i + j + taken];
  }

  class Socket {
    /** All bytes the kernel has taken. */
    var wire: seq<Byte>

    constructor ()
      ensures wire == []
    {
      wire := [];
    }

    /** write_iov_full, and write_full when `second` is empty. */
    method WriteIov(first: seq<Byte>, second: seq<Byte>, answers: seq<Send>) returns (rc: int)
      modifies this
      ensures
        var all := first + second;
        var s := Sends(|all|, answers);
        rc == s.rc && wire == old(wire) + all[..s.count]
    {
      hide Sends;
      var firstOffset: nat, secondOffset: nat, next: nat := 0, 0, 0;
      ghost var all, goal := first + second, Sends(|first + second|, answers);
      ghost var done: nat := 0;
      assert all[..0] == [] && answers[0..] == answers;
      while firstOffset < |first| || secondOffset < |second|
        invariant firstOffset <= |first| && secondOffset <= |second| && next <= |answers|
        invariant firstOffset < |first| ==> secondOffset == 0
        invariant done == firstOffset + secondOffset <= |all|
        invariant wire == old(wire) + all[..done]
        invariant var rest := Sends(|all| - done, answers[next..]); goal == rest.(count := done + rest.count)
        decreases |answers| - next
      {
        SendsNext(|all| - done, answers[next..]);
        if next == |answers| {
          return -EPIPE;
        }
        var answer := answers[next];
        assert answers[next..][1..] == answers[next + 1..];
        next := next + 1;
        if answer.Failed? {
          return -answer.error;
        }
        if answer.Sent? {
          var iov := first[firstOffset..] + second[secondOffset..];
          var taken := if answer.n <= |iov| then answer.n else |iov|;
          if taken == 0 {
            return -EPIPE;
          }
          Continues(old(wire), first, second, firstOffset, secondOffset, taken);
          wire := wire + iov[..taken];
          done := done + taken;
          if taken <= |first| - firstOffset {
            firstOffset := firstOffset + taken;
          } else {
            secondOffset := secondOffset + (taken - (|first| - firstOffset));
            firstOffset := |first|;
          }
        }
      }
      SendsNext(0, answers[next..]);
      rc := 0;
    }

    /** send_fd_with_request: one sendmsg, which must take everything. */
    method SendWithFd(request: seq<Byte>, answers: seq<Send>) returns (rc: int)
      modifies this
      ensures var s := SendsOnce(|request|, answers); s.count <= |request| && rc == s.rc && wire == old(wire) + request[..s.count]
    {
      var next := 0;
      assert request[..0] == [] && answers[0..] == answers;
      while next < |answers| && answers[next].Interrupted?
        invariant next <= |answers| && wire == old(wire)
        invariant SendsOnce(|request|, answers[next..]) == SendsOnce(|request|, answers)
      {
        assert answers[next..][1..] == answers[next + 1..];
        next := next + 1;
      }
      if next == |answers| {
        return -EPIPE;
      }
      var answer := answers[next];
      if answer.Failed? {
        return -answer.error;
      }
      var taken := if answer.n <= |request| then answer.n else |request|;
      wire := wire + request[..taken];
      if taken == 0 {
        return -EPIPE;
      }
      if taken != |request| {
        return -EPROTO;
      }
      rc := 0;
    }

    /** The sending half of the iouringd_*_result calls. */
    method Send(r: Request, capacity: nat, answers: seq<Send>) returns (rc: int)
      requires Fits(r)
      modifies this
      ensures !LibraryAccepts(r) || !RoomForEvents(r, capacity) ==> rc == -EINVAL && wire == old(wire)
      ensures LibraryAccepts(r) && RoomForEvents(r, capacity) ==>
        var b := Encode(0, r);
        var s := if r.RegisterFd? then SendsOnce(|b|, answers) else Sends(|b|, answers);
        s.count <= |b| && rc == s.rc && wire == old(wire) + b[..s.count]
    {
      hide Fields, LibraryAccepts, Sends, SendsOnce;
      var ws;
      if !IsControl(r) && NamesFile(KindOf(r)) {
        rc, ws := FillFileTask(r);
      } else {
        rc, ws := FillOther(r, capacity);
      }
      if rc != 0 {
        return;
      }
      if r.RegisterFd? {
        assert Encode(0, r) == Bytes(ws);
        rc := SendWithFd(Bytes(ws), answers);
      } else {
        rc := WriteIov(Bytes(ws), Data(r), answers);
      }
    }
  }

  // ---- the daemon reads what the library meant -----------------------------------------------------

  /** The limits of the daemon that the library does not enforce. */
  predicate WithinLimits(io: nat, r: Request)
    requires Fits(r)
  {
    && |Data(r)| <= io
    && 16 + 4 * |Fields(r)| + |Data(r)| <= MAX_REQUEST
    && (r.Accept? ==> r.length <= io)
    && (r.GetTrace? ==> r.max <= 256)
  }

  /** A task may be submitted with any of the three priorities, a control request with none. */
  predicate Urgency(r: Request, priority: nat) {
    priority == 0 || (!IsControl(r) && (priority == 1 || priority == 2))
  }

  lemma PriorityAllowed(r: Request, priority: nat)
    ensures PriorityOk(Code(r), priority) <==> Urgency(r, priority)
  {
  }

  lemma AcceptableIff(io: nat, priority: nat, r: Request)
    requires LibraryAccepts(r)
    ensures Acceptable(io, priority, r) <==> WithinLimits(io, r) && Urgency(r, priority)
  {
    PriorityAllowed(r, priority);
  }

  lemma InsideHasLength(io: nat, priority: nat, r: Request)
    requires LibraryAccepts(r) && priority < U16 && WithinLimits(io, r)
    ensures |FixedPart(priority, r)| == FixedWords(Code(r))
    ensures DataLength(io, Code(r), FixedPart(priority, r)) == Some(|Data(r)|)
  {
    var ws := FixedPart(priority, r);
    assert ws[4..] == Fields(r);
    assert forall k | 0 <= k < |Fields(r)| :: ws[4 + k] == Fields(r)[k];
  }

  lemma OutsideHasNoLength(io: nat, priority: nat, r: Request)
    requires LibraryAccepts(r) && priority < U16 && !WithinLimits(io, r)
    ensures |FixedPart(priority, r)| == FixedWords(Code(r))
    ensures DataLength(io, Code(r), FixedPart(priority, r)).None?
  {
    var ws := FixedPart(priority, r);
    assert ws[4..] == Fields(r);
    assert forall k | 0 <= k < |Fields(r)| :: ws[4 + k] == Fields(r)[k];
  }

  lemma PairHalves(low: nat, high: nat)
    requires low < U16 && high < U16
    ensures Pair(low, high) % U16 == low && Pair(low, high) / U16 == high
  {
  }

  /** Every request the library sends is read back as itself, from exactly its own bytes and
      whatever follows, if it is within the daemon's limits and its priority is one it may
      have; otherwise it is a protocol error. */
  lemma RoundTrip(io: nat, priority: nat, r: Request, rest: seq<Byte>)
    requires LibraryAccepts(r) && priority < U16
    ensures
      var b := Encode(priority, r);
      Decode(io, b + rest) == if WithinLimits(io, r) && Urgency(r, priority) then Got(priority, r, |b|) else Bad
  {
    hide Acceptable, Build, Fields, LibraryAccepts, DataLength, Finish, WithinLimits, Urgency;
    assert Fits(r) by { AcceptsFits(r); }
    var b := Encode(priority, r);
    AcceptableIff(io, priority, r);
    assert (b + rest)[..|b|] == b;
    if WithinLimits(io, r) && Urgency(r, priority) {
      PrintedSpells(priority, r);
      DecodeComplete(io, b + rest, priority, r, |b|);
    } else {
      RefusedTrip(io, priority, r, rest);
    }
  }

  lemma RefusedTrip(io: nat, priority: nat, r: Request, rest: seq<Byte>)
    requires LibraryAccepts(r) && priority < U16 && !(WithinLimits(io, r) && Urgency(r, priority))
    ensures Fits(r) && Decode(io, Encode(priority, r) + rest) == Bad
  {
    hide Build, Fields, LibraryAccepts, DataLength, WithinLimits, Urgency, PriorityOk, Finish;
    assert Fits(r) by { AcceptsFits(r); }
    var b, ws := Encode(priority, r), FixedPart(priority, r);
    if WithinLimits(io, r) {
      InsideHasLength(io, priority, r);
      BadPriority(Code(r), priority, r, ws, Data(r));
    } else {
      OutsideHasNoLength(io, priority, r);
    }
    PairHalves(Code(r), priority);
    WordsOfBytes(ws);
    HeadWords(b + rest, |ws|);
    assert (b + rest)[..4 * |ws|] == Bytes(ws);
    assert Words((b + rest)[..16]) == [MAGIC, VERSION, Pair(Code(r), priority), 0];
    assert (b + rest)[4 * |ws|..4 * |ws| + |Data(r)|] == Data(r);
  }

  lemma BadPriority(code: nat, priority: nat, r: Request, ws: seq<Word>, data: seq<Byte>)
    requires code == Code(r) && !Urgency(r, priority) && |ws| == FixedWords(code)
    ensures Finish(code, priority, ws, data) == Bad
  {
    PriorityAllowed(r, priority);
  }

  lemma AcceptsFits(r: Request)
    requires LibraryAccepts(r)
    ensures Fits(r)
  {
  }

  /** Some paths the library sends are too long for the daemon: 4093 to 4096 bytes with the
      terminator, at any io_bytes_max. */
  lemma LongPathRefused(io: nat, flags: int, mode: nat, d: seq<Byte>, rest: seq<Byte>)
    requires IsPath(d) && 4093 <= |d| <= 4096 && -(U32 / 2) <= flags < U32 / 2 && mode < U32
    ensures var r := Openat(flags, mode, d); LibraryAccepts(r) && Decode(io, Encode(0, r) + rest).Bad?
  {
    RoundTrip(io, 0, Openat(flags, mode, d), rest);
  }

  // ---- whole streams ---------------------------------------------------------------------------------

  function EncodeAll(rs: seq<Request>): seq<Byte>
    requires forall r | r in rs :: Fits(r)
  {
    if rs == [] then [] else Encode(0, rs[0]) + EncodeAll(rs[1..])
  }

  /** How many requests come before the first outside the limits. */
  function Served(io: nat, rs: seq<Request>): (n: nat)
    requires forall r | r in rs :: Fits(r)
    ensures n <= |rs| && (forall k | 0 <= k < n :: WithinLimits(io, rs[k]))
    ensures n < |rs| ==> !WithinLimits(io, rs[n])
  {
    if rs == [] || !WithinLimits(io, rs[0]) then 0 else 1 + Served(io, rs[1..])
  }

  /** The requests of a connection arrive as sent, in order and without remainder, up to the
      first one outside the daemon's limits, which ends the connection. */
  lemma {:induction false} StreamRoundTrip(io: nat, rs: seq<Request>)
    requires forall r | r in rs :: LibraryAccepts(r)
    ensures forall r | r in rs :: Fits(r)
    ensures
      var p, n := DecodeAll(io, EncodeAll(rs)), Served(io, rs);
      && p.messages == seq(n, i requires 0 <= i < n => Message(0, rs[i]))
      && p.failed == (n < |rs|)
      && p.rest == EncodeAll(rs[n..])
  {
    hide Decode, Fields, LibraryAccepts, WithinLimits;
    forall r | r in rs ensures Fits(r) { AcceptsFits(r); }
    if rs == [] {
      EmptyIsShort(io);
    } else {
      var r, rest := rs[0], EncodeAll(rs[1..]);
      RoundTrip(io, 0, r, rest);
      var b := Encode(0, r);
      assert EncodeAll(rs) == b + rest;
      if WithinLimits(io, r) {
        StreamRoundTrip(io, rs[1..]);
        assert (b + rest)[|b|..] == rest;
        assert rs[1..][Served(io, rs[1..])..] == rs[Served(io, rs)..];
      } else {
        assert rs[0..] == rs;
      }
    }
  }

  /** What the parser hands to the runtime fits: a registered buffer is no longer than its
      region. This is the condition under which the daemon's Parsed step is enabled. */
  lemma DecodedIsDeliverable(g: DaemonState.Config, b: seq<Byte>)
    ensures Decode(g.ioMax, b).Got? ==> DaemonSteps.Deliverable(g, Decode(g.ioMax, b).request)
  {
    DecodeSound(g.ioMax, b);
  }

  /** Of the submissions that arrive from the library, the fields are wrong of exactly those
      that would read more than io_bytes_max, or cancel an id no task can have. */
  lemma FieldsWrongIff(g: DaemonState.Config, r: Request)
    requires LibraryAccepts(r) && WithinLimits(g.ioMax, r) && !IsControl(r)
    ensures DaemonSteps.ArgumentsOk(g, r) <==>
              LengthOf(r) <= g.ioMax && (r.Cancel? ==> 0 < r.target < TASK_ID_RESERVED)
  {
  }
}
