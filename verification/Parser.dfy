/** The daemon's incremental parser: bytes arrive in chunks of any size and are collected up
    to an expected length that grows as the request becomes known. */
module Parser {
  import opened Protocol
  import opened Wire
  import opened Decoder

  datatype Message = Message(priority: nat, request: Request)

  // ---- the whole stream at once -----------------------------------------------------------

  /** The requests of a byte stream; whether it breaks the protocol after them; and what is
      left over. */
  datatype Parsed = Parsed(messages: seq<Message>, failed: bool, rest: seq<Byte>)

  function DecodeAll(io: nat, b: seq<Byte>): Parsed
    decreases |b|
  {
    match Decode(io, b)
    case Short => Parsed([], false, b)
    case Bad => Parsed([], true, b)
    case Got(priority, r, n) =>
      var tail := DecodeAll(io, b[n..]);
      tail.(messages := [Message(priority, r)] + tail.messages)
  }

  // ---- stages --------------------------------------------------------------------------------

  /** How many bytes the parser waits for when it has `b`. */
  function Want(io: nat, b: seq<Byte>): (n: nat)
    requires Decode(io, b).Short?
    ensures |b| < n <= MAX_REQUEST
  {
    if |b| < 16 then 16
    else
      var code := Words(b[..16])[2] % U16;
      var n := 4 * FixedWords(code);
      if |b| < n then n else n + DataLength(io, code, Words(b[..n])).value
  }

  /** Below the expected length nothing changes. */
  lemma StillShort(io: nat, b: seq<Byte>, more: seq<Byte>)
    requires Decode(io, b).Short? && |b| + |more| < Want(io, b)
    ensures Decode(io, b + more).Short? && Want(io, b + more) == Want(io, b)
  {
    hide Build, DataLength, Finish;
    if |b| >= 16 {
      assert (b + more)[..16] == b[..16];
      var code := Words(b[..16])[2] % U16;
      var n := 4 * FixedWords(code);
      if |b| >= n { assert (b + more)[..n] == b[..n]; }
    }
  }

  /** A request is found exactly when its last byte arrives. */
  lemma FoundWhole(io: nat, b: seq<Byte>, more: seq<Byte>)
    requires Decode(io, b).Short? && |b| + |more| == Want(io, b)
    requires Decode(io, b + more).Got?
    ensures Decode(io, b + more).length == |b| + |more|
  {
    hide Build, DataLength, FixedWords;
    if |b| >= 16 {
      assert (b + more)[..16] == b[..16];
      var code := Words(b[..16])[2] % U16;
      var n := 4 * FixedWords(code);
      if |b| >= n { assert (b + more)[..n] == b[..n]; }
    }
  }

  lemma WantAtLeast(io: nat, b: seq<Byte>)
    requires Decode(io, b).Short?
    ensures Want(io, b) >= 16
  {
  }

  lemma EmptyIsShort(io: nat)
    ensures Decode(io, []).Short? && Want(io, []) == 16
  {
  }

  lemma AllShort(io: nat, b: seq<Byte>)
    requires Decode(io, b).Short?
    ensures DecodeAll(io, b) == Parsed([], false, b)
  {
  }

  /** An error in the first bytes is an error of the stream. */
  lemma AllBad(io: nat, b: seq<Byte>, n: nat)
    requires n <= |b| && Decode(io, b[..n]).Bad?
    ensures DecodeAll(io, b) == Parsed([], true, b)
  {
    hide Decode;
    assert b == b[..n] + b[n..];
    DecodeStable(io, b[..n], b[n..]);
  }

  /** A request in the first bytes is the first request of the stream. */
  lemma AllGot(io: nat, b: seq<Byte>, n: nat)
    requires n <= |b| && Decode(io, b[..n]).Got? && Decode(io, b[..n]).length == n
    ensures
      var d, tail := Decode(io, b[..n]), DecodeAll(io, b[n..]);
      DecodeAll(io, b) == tail.(messages := [Message(d.priority, d.request)] + tail.messages)
  {
    hide Decode;
    assert b == b[..n] + b[n..];
    DecodeStable(io, b[..n], b[n..]);
  }

  // ---- receiving ------------------------------------------------------------------------------

  /** What recvmsg(2) may bring: bytes, with an fd or without; control data that are cut short
      or of another kind; the end of the stream; nothing now; an interruption; an error. */
  datatype Recv = Chunk(bytes: seq<Byte>, fd: Option<nat>) | BadControl | End | WouldBlock | Interrupted | Failed

  datatype Stop = Whole | Wait | Hangup | Broken

  /** One answer: reading stops, perhaps after closing an fd; or it goes on, with more bytes
      and the fd now held. Bytes over what was asked for stay in the socket. */
  datatype Step =
    | Stopped(dropped: Option<nat>, stop: Stop)
    | Took(bytes: seq<Byte>, held: Option<nat>, over: seq<Byte>)

  /** The bytes taken, the fd held, an fd closed at once, why reading stopped, and what the
      socket has left. */
  datatype Absorbed = Absorbed(bytes: seq<Byte>, held: Option<nat>, dropped: Option<nat>, stop: Stop, left: seq<Recv>)

  /** What one answer means with `room` bytes missing, some got before and an fd held or not. */
  function AbsorbOne(room: nat, got: bool, held: Option<nat>, answer: Recv): (r: Step)
    requires room > 0
    ensures r.Took? ==> |r.bytes| <= room && (r.over != [] ==> |r.bytes| == room) && (r.bytes == [] ==> r.over == [])
  {
    match answer
    case Chunk(bytes, fd) =>
      var n := if |bytes| <= room then |bytes| else room;
      if n == 0 then Stopped(None, if got then Broken else Hangup)
      else if fd.Some? && held.Some? then Stopped(fd, Broken)
      else Took(bytes[..n], if fd.Some? then fd else held, bytes[n..])
    case End => Stopped(None, if got then Broken else Hangup)
    case WouldBlock => Stopped(None, Wait)
    case Interrupted => Took([], held, [])
    case BadControl | Failed => Stopped(None, Broken)
  }

  /** The answers still to come after the first, `over` being the rest of its bytes. */
  function Next(over: seq<Byte>, answers: seq<Recv>): (r: seq<Recv>)
    requires answers != []
    ensures |r| <= |answers| && (over == [] ==> |r| < |answers|)
  {
    if over == [] then answers[1..] else [Chunk(over, None)] + answers[1..]
  }

  /** What reading up to `room` bytes does. When the answers run out the socket blocks. */
  function Absorb(room: nat, got: bool, held: Option<nat>, answers: seq<Recv>): Absorbed
    decreases room, |answers|
  {
    if room == 0 then Absorbed([], held, None, Whole, answers)
    else if answers == [] then Absorbed([], held, None, Wait, [])
    else
      match AbsorbOne(room, got, held, answers[0])
      case Stopped(dropped, stop) => Absorbed([], held, dropped, stop, answers[1..])
      case Took(bytes, held', over) =>
        var rest := Absorb(room - |bytes|, got || bytes != [], held', Next(over, answers));
        rest.(bytes := bytes + rest.bytes)
  }

  lemma StopsHere(room: nat, got: bool, held: Option<nat>, answers: seq<Recv>)
    requires room > 0 && answers != [] && AbsorbOne(room, got, held, answers[0]).Stopped?
    ensures
      var one, a := AbsorbOne(room, got, held, answers[0]), Absorb(room, got, held, answers);
      a == Absorbed([], held, one.dropped, one.stop, answers[1..]) && !a.stop.Whole?
  {
  }

  lemma GoesOn(room: nat, got: bool, held: Option<nat>, answers: seq<Recv>)
    requires room > 0 && answers != [] && AbsorbOne(room, got, held, answers[0]).Took?
    ensures
      var one := AbsorbOne(room, got, held, answers[0]);
      var rest := Absorb(room - |one.bytes|, got || one.bytes != [], one.held, Next(one.over, answers));
      Absorb(room, got, held, answers) == rest.(bytes := one.bytes + rest.bytes)
  {
  }

  lemma NothingMore(room: nat, got: bool, held: Option<nat>, answers: seq<Recv>)
    requires room == 0 || answers == []
    ensures Absorb(room, got, held, answers) == Absorbed([], held, None, if room == 0 then Whole else Wait, answers)
  {
  }

  /** Reading never takes more than the bytes expected, and says that it has them exactly when
      it has; the stream may only end between requests; an fd once held stays held, and a
      second one is closed and ends the connection. */
  lemma {:induction false} AbsorbFacts(room: nat, got: bool, held: Option<nat>, answers: seq<Recv>)
    ensures
      var a := Absorb(room, got, held, answers);
      && |a.bytes| <= room
      && (a.stop.Whole? <==> |a.bytes| == room)
      && (a.stop.Hangup? ==> !got && a.bytes == [])
      && (held.Some? ==> a.held == held)
      && (a.dropped.Some? ==> a.stop.Broken? && a.held.Some?)
    decreases room, |answers|
  {
    hide Absorb, Next;
    if room == 0 || answers == [] {
      NothingMore(room, got, held, answers);
    } else {
      var one := AbsorbOne(room, got, held, answers[0]);
      if one.Took? {
        AbsorbFacts(room - |one.bytes|, got || one.bytes != [], one.held, Next(one.over, answers));
        GoesOn(room, got, held, answers);
      } else {
        StopsHere(room, got, held, answers);
      }
    }
  }

  /** All the bytes that come, in order. */
  function Text(answers: seq<Recv>): seq<Byte> {
    if answers == [] then []
    else (if answers[0].Chunk? then answers[0].bytes else []) + Text(answers[1..])
  }

  lemma TextCons(x: Recv, rest: seq<Recv>)
    ensures Text([x] + rest) == (if x.Chunk? then x.bytes else []) + Text(rest)
  {
    assert ([x] + rest)[1..] == rest;
  }

  lemma {:induction false} TextNext(first: seq<Byte>, over: seq<Byte>, answers: seq<Recv>)
    requires answers != []
    requires first + over == if answers[0].Chunk? then answers[0].bytes else []
    ensures first + Text(Next(over, answers)) == Text(answers)
  {
    hide Text;
    var rest := answers[1..];
    assert answers == [answers[0]] + rest;
    TextCons(answers[0], rest);
    if over != [] {
      TextCons(Chunk(over, None), rest);
      Regroup(first, over, Text(rest));
    } else {
      assert first + over == first;
    }
  }

  lemma {:induction false} NextText(room: nat, got: bool, held: Option<nat>, answers: seq<Recv>)
    requires room > 0 && answers != [] && AbsorbOne(room, got, held, answers[0]).Took?
    ensures var one := AbsorbOne(room, got, held, answers[0]); one.bytes + Text(Next(one.over, answers)) == Text(answers)
  {
    hide Text, Next;
    var one := AbsorbOne(room, got, held, answers[0]);
    TextNext(one.bytes, one.over, answers);
  }

  /** Bytes are taken in order and none is lost while the connection lasts. */
  lemma {:induction false} AbsorbText(room: nat, got: bool, held: Option<nat>, answers: seq<Recv>)
    ensures
      var a := Absorb(room, got, held, answers);
      && a.bytes <= Text(answers)
      && (a.stop.Whole? || a.stop.Wait? ==> a.bytes + Text(a.left) == Text(answers))
      && |a.left| <= |answers| && (room > 0 && a.stop.Wait? && answers != [] ==> |a.left| < |answers|)
    decreases room, |answers|
  {
    hide AbsorbOne, Absorb, Text, Next;
    if room == 0 || answers == [] {
      NothingMore(room, got, held, answers);
    } else {
      var one := AbsorbOne(room, got, held, answers[0]);
      if one.Took? {
        var next := Next(one.over, answers);
        AbsorbText(room - |one.bytes|, got || one.bytes != [], one.held, next);
        NextText(room, got, held, answers);
        GoesOn(room, got, held, answers);
        var rest := Absorb(room - |one.bytes|, got || one.bytes != [], one.held, next);
        Prefixed(one.bytes, rest.bytes, Text(next), Text(rest.left));
        if room == |one.bytes| { NothingMore(0, got || one.bytes != [], one.held, next); }
      } else {
        StopsHere(room, got, held, answers);
        StopText(room, got, held, answers);
      }
    }
  }

  /** The fds that come with bytes, in order. */
  function Fds(answers: seq<Recv>): seq<nat> {
    if answers == [] then [] else Carried(answers[0]) + Fds(answers[1..])
  }

  function Carried(answer: Recv): seq<nat> {
    if answer.Chunk? && answer.bytes != [] && answer.fd.Some? then [answer.fd.value] else []
  }

  function AsSeq(fd: Option<nat>): seq<nat> {
    if fd.Some? then [fd.value] else []
  }

  lemma {:induction false} FdsNext(over: seq<Byte>, answers: seq<Recv>)
    requires answers != []
    ensures Carried(answers[0]) + Fds(Next(over, answers)) == Fds(answers)
  {
    if over != [] {
      assert Next(over, answers)[1..] == answers[1..];
      assert Carried(Chunk(over, None)) == [];
    }
  }

  /** Every fd that comes while reading is the one held afterwards or the one dropped: the
      first if none was held before, and a second at most. */
  lemma {:induction false} AbsorbFds(room: nat, got: bool, held: Option<nat>, answers: seq<Recv>)
    ensures
      var a := Absorb(room, got, held, answers);
      AsSeq(held) + Fds(answers) == AsSeq(a.held) + AsSeq(a.dropped) + Fds(a.left)
    decreases room, |answers|
  {
    hide Absorb, AbsorbOne, Fds, Next, Carried, AsSeq;
    if room == 0 || answers == [] {
      NothingMore(room, got, held, answers);
      NoneDropped();
      NoFds();
    } else {
      var one := AbsorbOne(room, got, held, answers[0]);
      OneFds(room, got, held, answers[0]);
      if one.Took? {
        var next := Next(one.over, answers);
        AbsorbFds(room - |one.bytes|, got || one.bytes != [], one.held, next);
        GoesOn(room, got, held, answers);
        FdsNext(one.over, answers);
        Associate(AsSeq(held), Carried(answers[0]), Fds(next));
      } else {
        StopsHere(room, got, held, answers);
        FdsNext([], answers);
        NextRest(answers);
        Associate(AsSeq(held), Carried(answers[0]), Fds(answers[1..]));
      }
    }
  }

  lemma Regroup(a: seq<Byte>, b: seq<Byte>, c: seq<Byte>)
    ensures a + (b + c) == a + b + c
  {
  }

  lemma Associate(a: seq<nat>, b: seq<nat>, c: seq<nat>)
    ensures a + (b + c) == a + b + c
  {
  }

  lemma NoneDropped()
    ensures AsSeq(None) == []
  {
  }

  lemma OneFds(room: nat, got: bool, held: Option<nat>, answer: Recv)
    requires room > 0
    ensures
      match AbsorbOne(room, got, held, answer)
      case Took(_, held', _) => AsSeq(held) + Carried(answer) == AsSeq(held')
      case Stopped(dropped, _) => Carried(answer) == AsSeq(dropped)
  {
  }

  lemma NoFds()
    ensures Fds([]) == []
  {
  }

  lemma NextRest(answers: seq<Recv>)
    requires answers != []
    ensures Next([], answers) == answers[1..]
  {
  }

  /** `left` is what is still to come of `answers`; its first chunk may be what is over of one. */
  predicate Resumes(left: seq<Recv>, answers: seq<Recv>) {
    && |left| <= |answers|
    && (forall i | 1 <= i < |left| :: left[i] == answers[|answers| - |left| + i])
    && (left != [] ==> left[0] == answers[|answers| - |left|] || Leftover(left[0]))
  }

  predicate Leftover(x: Recv) {
    x.Chunk? && x.bytes != [] && x.fd.None?
  }

  lemma ResumesTwice(a: seq<Recv>, b: seq<Recv>, c: seq<Recv>)
    requires Resumes(a, b) && Resumes(b, c)
    ensures Resumes(a, c)
  {
  }

  lemma NextResumes(over: seq<Byte>, answers: seq<Recv>)
    requires answers != []
    ensures Resumes(Next(over, answers), answers)
  {
  }

  predicate IsEnd(x: Recv) {
    x.End? || (x.Chunk? && x.bytes == [])
  }

  /** The answer `x` is a reason to stop so, bytes having been got before or not. */
  predicate StopsSo(x: Recv, got: bool, stop: Stop) {
    match stop
    case Whole => false
    case Wait => x.WouldBlock?
    case Hangup => !got && IsEnd(x)
    case Broken => x.BadControl? || x.Failed? || (got && IsEnd(x)) || (x.Chunk? && x.bytes != [] && x.fd.Some?)
  }

  /** The answer after which `left` is to come, if there is one. */
  predicate StoppedAt(left: seq<Recv>, answers: seq<Recv>, got: bool, stop: Stop) {
    |left| < |answers| && StopsSo(answers[|answers| - |left| - 1], got, stop)
  }

  /** Reading stops short only at an answer that is a reason to, or when no more come. */
  lemma {:induction false} AbsorbStops(room: nat, got: bool, held: Option<nat>, answers: seq<Recv>)
    ensures
      var a := Absorb(room, got, held, answers);
      && Resumes(a.left, answers)
      && (!a.stop.Whole? ==>
            (a.stop.Wait? && a.left == []) || StoppedAt(a.left, answers, got || a.bytes != [], a.stop))
    decreases room, |answers|
  {
    hide Absorb, Next;
    if room == 0 || answers == [] {
      NothingMore(room, got, held, answers);
    } else {
      var one := AbsorbOne(room, got, held, answers[0]);
      if one.Took? {
        var next := Next(one.over, answers);
        AbsorbStops(room - |one.bytes|, got || one.bytes != [], one.held, next);
        GoesOn(room, got, held, answers);
        NextResumes(one.over, answers);
        var a := Absorb(room, got, held, answers);
        ResumesTwice(a.left, next, answers);
        if !a.stop.Whole? && StoppedAt(a.left, next, got || a.bytes != [], a.stop) {
          StopperKept(a.left, next, answers, got || a.bytes != [], a.stop);
        }
      } else {
        StopsHere(room, got, held, answers);
      }
    }
  }

  lemma StopperKept(left: seq<Recv>, next: seq<Recv>, answers: seq<Recv>, got: bool, stop: Stop)
    requires Resumes(next, answers) && StoppedAt(left, next, got, stop)
    ensures StoppedAt(left, answers, got, stop)
  {
    var i := |next| - |left| - 1;
    assert i == 0 ==> !Leftover(next[0]);
  }

  lemma StopText(room: nat, got: bool, held: Option<nat>, answers: seq<Recv>)
    requires room > 0 && answers != [] && AbsorbOne(room, got, held, answers[0]).Stopped?
    ensures AbsorbOne(room, got, held, answers[0]).stop.Wait? ==> Text(answers[1..]) == Text(answers)
  {
  }

  /** What a call to serve a readable client comes to: nothing yet; a request, with the fd that
      came with it; or the end of the connection, and why. */
  datatype Service = Blocked | Request(message: Message, fd: Option<nat>) | Over(why: Why)
  datatype Why = Ended | Socket | Malformed | StrayFd | SecondFd

  /** What the outcome says about the bytes `b` and the fds of the request so far. An fd goes
      with a REGISTER_FD, and with nothing else; there is never more than one. */
  predicate Means(io: nat, b: seq<Byte>, fds: seq<nat>, v: Service) {
    match v
    case Blocked => Decode(io, b).Short? && |fds| <= 1
    case Request(m, fd) =>
      && Decode(io, b) == Got(m.priority, m.request, |b|)
      && AsSeq(fd) == fds && (fd.Some? ==> m.request.RegisterFd?)
    case Over(why) =>
      && (why.Malformed? ==> Decode(io, b).Bad?)
      && (why.StrayFd? ==>
            Decode(io, b).Got? && Decode(io, b).length == |b| && !Decode(io, b).request.RegisterFd? && |fds| == 1)
      && (why.Ended? ==> b == [])
      && (why.SecondFd? <==> |fds| == 2)
  }

  /** Why the call came to this: the socket blocked, hung up or failed at the answer before
      `left`, or brought a second fd there. */
  predicate Because(answers: seq<Recv>, left: seq<Recv>, got: bool, v: Service) {
    match v
    case Blocked => left == [] || StoppedAt(left, answers, got, Wait)
    case Request(_, _) => true
    case Over(why) =>
      && (why.Ended? ==> StoppedAt(left, answers, got, Hangup))
      && (why.Socket? || why.SecondFd? ==> StoppedAt(left, answers, got, Stop.Broken))
  }

  lemma BecauseKept(left: seq<Recv>, next: seq<Recv>, answers: seq<Recv>, got: bool, v: Service)
    requires Resumes(next, answers) && Because(next, left, got, v)
    ensures Because(answers, left, got, v)
  {
    hide Resumes, StoppedAt;
    if StoppedAt(left, next, got, Wait) { StopperKept(left, next, answers, got, Wait); }
    if StoppedAt(left, next, got, Hangup) { StopperKept(left, next, answers, got, Hangup); }
    if StoppedAt(left, next, got, Stop.Broken) { StopperKept(left, next, answers, got, Stop.Broken); }
  }

  lemma ResumesAll(answers: seq<Recv>)
    ensures Resumes(answers, answers)
  {
  }

  /** A request and the fd that came with it. */
  datatype Handed = Handed(message: Message, fd: Option<nat>)

  function MessagesOf(hs: seq<Handed>): seq<Message> {
    if hs == [] then [] else MessagesOf(hs[..|hs| - 1]) + [hs[|hs| - 1].message]
  }

  function FdsOf(hs: seq<Handed>): seq<nat> {
    if hs == [] then [] else FdsOf(hs[..|hs| - 1]) + AsSeq(hs[|hs| - 1].fd)
  }

  lemma NoneHanded()
    ensures MessagesOf([]) == [] && FdsOf([]) == []
  {
  }

  lemma OneHanded(hs: seq<Handed>, m: Message, fd: Option<nat>)
    ensures MessagesOf(hs + [Handed(m, fd)]) == MessagesOf(hs) + [m]
    ensures FdsOf(hs + [Handed(m, fd)]) == FdsOf(hs) + AsSeq(fd)
  {
    assert (hs + [Handed(m, fd)])[..|hs|] == hs;
  }

  lemma HandedOver(io: nat, b: seq<Byte>, fds: seq<nat>, v: Service)
    requires v.Request? && Means(io, b, fds, v)
    ensures AsSeq(v.fd) == fds
  {
  }

  /** What came, given what was held before and after. */
  lemma Arrived(was: Option<nat>, held: Option<nat>, dropped: Option<nat>, all: seq<nat>, left: seq<nat>)
    requires AsSeq(was) + all == AsSeq(held) + AsSeq(dropped) + left && (was.Some? ==> held == was)
    requires dropped.Some? ==> held.Some?
    ensures
      var fds := if was.Some? then AsSeq(dropped) else AsSeq(held) + AsSeq(dropped);
      && fds + left == all && AsSeq(was) + fds == AsSeq(held) + AsSeq(dropped)
      && (|AsSeq(was) + fds| == 2 <==> dropped.Some?)
  {
    if was.Some? {
      assert (AsSeq(was) + all)[1..] == all;
      assert (AsSeq(held) + AsSeq(dropped) + left)[1..] == AsSeq(dropped) + left;
    } else {
      assert AsSeq(was) + all == all;
    }
  }

  /** The stream begins with `done`, which is exactly these messages. */
  ghost predicate Begun(io: nat, done: seq<Byte>, messages: seq<Message>) {
    forall rest: seq<Byte> ::
      DecodeAll(io, done + rest) ==
        DecodeAll(io, rest).(messages := messages + DecodeAll(io, rest).messages)
  }

  lemma BegunNothing(io: nat)
    ensures Begun(io, [], [])
  {
    hide DecodeAll;
    forall rest: seq<Byte> ensures DecodeAll(io, [] + rest) == DecodeAll(io, rest).(messages := [] + DecodeAll(io, rest).messages) {
      assert [] + rest == rest;
    }
  }

  lemma BegunMore(io: nat, done: seq<Byte>, part: seq<Byte>, fds: seq<nat>, messages: seq<Message>, v: Service)
    requires Begun(io, done, messages) && v.Request? && Means(io, part, fds, v)
    ensures Begun(io, done + part, messages + [v.message])
  {
    hide Decode, DecodeAll;
    forall rest: seq<Byte>
      ensures DecodeAll(io, done + part + rest) ==
        DecodeAll(io, rest).(messages := messages + [v.message] + DecodeAll(io, rest).messages)
    {
      var tail := part + rest;
      assert done + part + rest == done + tail;
      assert tail[..|part|] == part && tail[|part|..] == rest;
      AllGot(io, tail, |part|);
      assert messages + ([v.message] + DecodeAll(io, rest).messages) == messages + [v.message] + DecodeAll(io, rest).messages;
    }
  }

  lemma BegunOver(io: nat, done: seq<Byte>, part: seq<Byte>, fds: seq<nat>, messages: seq<Message>, v: Service)
    requires Begun(io, done, messages) && v.Over? && Means(io, part, fds, v)
    ensures v.why.Malformed? ==> DecodeAll(io, done + part) == Parsed(messages, true, part)
    ensures v.why.Ended? ==> DecodeAll(io, done + part) == Parsed(messages, false, [])
    ensures messages <= DecodeAll(io, done + part).messages
  {
    hide Decode, DecodeAll;
    if v.why.Malformed? {
      assert part[..|part|] == part;
      AllBad(io, part, |part|);
    } else if v.why.Ended? {
      EmptyIsShort(io);
      AllShort(io, []);
    }
  }

  lemma BegunShort(io: nat, done: seq<Byte>, part: seq<Byte>, messages: seq<Message>)
    requires Begun(io, done, messages) && Decode(io, part).Short?
    ensures DecodeAll(io, done + part) == Parsed(messages, false, part)
  {
    hide Decode, DecodeAll;
    AllShort(io, part);
  }

  lemma NoText()
    ensures Text([]) == []
  {
  }

  lemma Prefixed(text: seq<Byte>, bytes: seq<Byte>, rest: seq<Byte>, left: seq<Byte>)
    requires bytes <= rest
    ensures text + bytes <= text + rest
    ensures bytes + left == rest ==> (text + bytes) + left == text + rest
  {
    assert rest == bytes + rest[|bytes|..];
    assert text + rest == (text + bytes) + rest[|bytes|..];
  }

  datatype Verdict = More | Error | Ready(message: Message)

  class Parser {
    const io: nat
    const input: array<Byte>
    var length: nat
    var expected: nat
    var received: Option<nat>  // an fd that came with the input

    ghost predicate Valid()
      reads this, input
    {
      && io <= 4096
      && input.Length == MAX_REQUEST
      && length < expected <= MAX_REQUEST
      && Decode(io, input[..length]).Short?
      && expected == Want(io, input[..length])
    }

    constructor (io: nat)
      requires io <= 4096
      ensures Valid() && fresh(input) && length == 0 && this.io == io
    {
      this.io := io;
      input := new Byte[MAX_REQUEST];
      length, expected := 0, 16;
      received := None;
    }

    /** iouringd_process_submit_input: the input has reached the expected length. */
    method Process() returns (v: Verdict)
      requires input.Length == MAX_REQUEST && 16 <= length <= MAX_REQUEST && io <= 4096
      modifies this`length, this`expected
      ensures
        var d := Decode(io, old(input[..length]));
        && (v.More? <==> d.Short?) && (v.Error? <==> d.Bad?)
        && (v.More? ==> length == old(length) && expected == Want(io, input[..length]))
        && (v.Ready? ==> v.message == Message(d.priority, d.request) && length == 0 && expected == 16)
    {
      hide Build, DataLength, FixedWords, HeaderOk;
      ghost var b := input[..length];
      var head := Words(input[..16]);
      assert b[..16] == input[..16];
      if !HeaderOk(head) {
        return Error;
      }
      var code, priority := head[2] % U16, head[2] / U16;
      var n := 4 * FixedWords(code);
      expected := n;
      if length < expected {
        return More;
      }
      var ws := Words(input[..n]);
      assert b[..n] == input[..n];
      var data := DataLength(io, code, ws);
      if data.None? {
        return Error;
      }
      expected := n + data.value;
      if length < expected {
        return More;
      }
      assert b[n..expected] == input[n..expected];
      var d := Finish(code, priority, ws, input[n..expected]);
      if d.Bad? {
        return Error;
      }
      length, expected := 0, 16;
      v := Ready(Message(d.priority, d.request));
    }

    /** One receive, and the parsing it makes possible. */
    method Take(chunk: seq<Byte>) returns (v: Verdict)
      requires Valid() && 1 <= |chunk| <= expected - length
      modifies this`length, this`expected, input
      ensures
        var b := old(input[..length]) + chunk;
        match v
        case More => Valid() && input[..length] == b
        case Error => Decode(io, b).Bad?
        case Ready(m) => Valid() && length == 0 && Decode(io, b) == Got(m.priority, m.request, |b|)
    {
      hide Decode, Want;
      ghost var before := input[..length];
      Receive(chunk);
      if length < expected {
        StillShort(io, before, chunk);
        return More;
      }
      ghost var b := input[..length];
      WantAtLeast(io, before);
      v := Process();
      if v.Ready? {
        FoundWhole(io, before, chunk);
        EmptyIsShort(io);
        assert input[..length] == [];
      } else if v.More? {
        assert input[..length] == b;
      }
    }

    /** iouringd_service_client_readable on a stream that arrives in any chunks: each receive
        takes some of the bytes still missing, never more. */
    method Feed(stream: seq<Byte>) returns (messages: seq<Message>, failed: bool)
      requires Valid() && length == 0
      modifies this`length, this`expected, input
      ensures messages == DecodeAll(io, stream).messages && failed == DecodeAll(io, stream).failed
      ensures !failed ==> Valid() && input[..length] == DecodeAll(io, stream).rest
    {
      hide Decode, Want, DecodeAll;
      messages, failed := [], false;
      var start, pos := 0, 0;
      ghost var whole := DecodeAll(io, stream);
      assert stream[0..] == stream;
      while pos < |stream|
        invariant start <= pos <= |stream| && !failed
        invariant Valid() && input[..length] == stream[start..pos]
        invariant whole == DecodeAll(io, stream[start..]).(messages := messages + DecodeAll(io, stream[start..]).messages)
      {
        var room, left := expected - length, |stream| - pos;
        var take: nat :| 1 <= take <= room && take <= left;
        assert stream[start..pos] + stream[pos..pos + take] == stream[start..pos + take];
        var v := Take(stream[pos..pos + take]);
        pos := pos + take;
        ghost var rest := stream[start..];
        assert rest[..pos - start] == stream[start..pos] && rest[pos - start..] == stream[pos..];
        if v.Error? {
          AllBad(io, rest, pos - start);
          failed := true;
          return;
        }
        if v.Ready? {
          AllGot(io, rest, pos - start);
          ghost var tail := DecodeAll(io, stream[pos..]).messages;
          assert messages + ([v.message] + tail) == (messages + [v.message]) + tail;
          messages := messages + [v.message];
          start := pos;
        }
      }
      assert stream[start..] == stream[start..pos];
      AllShort(io, stream[start..]);
    }

    /** One answer of recvmsg: `done` if reading stops there. */
    method TakeAnswer(answer: Recv) returns (done: bool, rc: int, closed: bool, dropped: Option<nat>, over: seq<Byte>)
      requires length < expected <= input.Length
      modifies this`length, this`received, input
      ensures length <= expected
      ensures
        match AbsorbOne(old(expected - length), old(length) != 0, old(received), answer)
        case Stopped(d, stop) =>
          && done && dropped == d && closed == stop.Hangup? && rc == (if stop.Broken? then -1 else 0)
          && length == old(length) && received == old(received) && input[..length] == old(input[..length])
        case Took(bytes, held, o) =>
          && !done && received == held && length == old(length) + |bytes| && over == o
          && input[..length] == old(input[..length]) + bytes
    {
      done, rc, closed, dropped, over := false, 0, false, None, [];
      match answer
      case Chunk(bytes, fd) =>
        var n := if |bytes| <= expected - length then |bytes| else expected - length;
        if n == 0 {
          return true, (if length == 0 then 0 else -1), length == 0, None, [];
        }
        if fd.Some? {
          if received.Some? {
            return true, -1, false, fd, [];
          }
          received := fd;
        }
        Receive(bytes[..n]);
        over := bytes[n..];
      case End =>
        return true, (if length == 0 then 0 else -1), length == 0, None, [];
      case WouldBlock =>
        done := true;
      case Interrupted =>
      case BadControl =>
        return true, -1, false, None, [];
      case Failed =>
        return true, -1, false, None, [];
    }

    /** iouringd_read_client_input: receive until the expected bytes are there or something
        else happens. */
    method ReadInput(answers: seq<Recv>) returns (rc: int, closed: bool, dropped: Option<nat>, left: seq<Recv>)
      requires length <= expected <= input.Length
      modifies this`length, this`received, input
      ensures length <= expected
      ensures
        var a := Absorb(old(expected - length), old(length) != 0, old(received), answers);
        && input[..length] == old(input[..length]) + a.bytes && length == old(length) + |a.bytes|
        && received == a.held && dropped == a.dropped && closed == a.stop.Hangup? && left == a.left
        && rc == match a.stop case Whole => 1 case Broken => -1 case _ => 0
    {
      hide AbsorbOne, Absorb;
      ghost var goal := Absorb(expected - length, length != 0, received, answers);
      ghost var so: seq<Byte> := [];
      left := answers;
      while length < expected
        invariant length <= expected <= input.Length
        invariant length == old(length) + |so| && input[..length] == old(input[..length]) + so
        invariant
          var rest := Absorb(expected - length, length != 0, received, left);
          goal == rest.(bytes := so + rest.bytes)
        decreases expected - length, |left|
      {
        ghost var missing, got, held := expected - length, length != 0, received;
        if left == [] {
          NothingMore(missing, got, held, left);
          return 0, false, None, [];
        }
        ghost var step := AbsorbOne(missing, got, held, left[0]);
        var done, over;
        done, rc, closed, dropped, over := TakeAnswer(left[0]);
        if done {
          StopsHere(missing, got, held, left);
          left := left[1..];
          return;
        }
        GoesOn(missing, got, held, left);
        left := Next(over, left);
        ghost var more := Absorb(expected - length, length != 0, received, left);
        assert so + (step.bytes + more.bytes) == (so + step.bytes) + more.bytes;
        so := so + step.bytes;
      }
      NothingMore(expected - length, length != 0, received, left);
      rc, closed, dropped := 1, false, None;
    }

    /** Reading up to the expected length, and the parsing it makes possible. The fds that came
        are `fds`; the one held goes to the runtime with its request. */
    method Once(answers: seq<Recv>) returns (v: Option<Service>, left: seq<Recv>, ghost text: seq<Byte>, ghost fds: seq<nat>)
      requires Valid()
      modifies this`length, this`expected, this`received, input
      ensures text <= Text(answers) && |left| <= |answers| && fds + Fds(left) == Fds(answers)
      ensures v.None? || !v.value.Over? ==> Valid() && text + Text(left) == Text(answers)
      ensures v.None? ==>
        input[..length] == old(input[..length]) + text && text != [] && AsSeq(received) == AsSeq(old(received)) + fds
      ensures v.Some? ==> Means(io, old(input[..length]) + text, AsSeq(old(received)) + fds, v.value)
      ensures Resumes(left, answers) && (v.Some? ==> Because(answers, left, old(length) != 0 || text != [], v.value))
      ensures v == Some(Blocked) ==>
        && input[..length] == old(input[..length]) + text && (answers != [] ==> |left| < |answers|)
        && AsSeq(received) == AsSeq(old(received)) + fds
      ensures v.Some? && v.value.Request? ==> length == 0 && received.None? && text != []
    {
      hide Decode, Want, Absorb, Text, Fds, Resumes, StoppedAt;
      ghost var before, room := input[..length], expected - length;
      ghost var a := Absorb(room, length != 0, received, answers);
      AbsorbFacts(room, length != 0, received, answers);
      AbsorbText(room, length != 0, received, answers);
      AbsorbFds(room, length != 0, received, answers);
      AbsorbStops(room, length != 0, received, answers);
      text := a.bytes;
      fds := if received.Some? then AsSeq(a.dropped) else AsSeq(a.held) + AsSeq(a.dropped);
      Arrived(received, a.held, a.dropped, Fds(answers), Fds(a.left));
      var rc, closed, dropped;
      rc, closed, dropped, left := ReadInput(answers);
      if closed {
        return Some(Over(Ended)), left, text, fds;
      }
      if rc < 0 {
        return Some(Over(if dropped.Some? then SecondFd else Socket)), left, text, fds;
      }
      if rc == 0 {
        StillShort(io, before, text);
        return Some(Blocked), left, text, fds;
      }
      ghost var b := input[..length];
      WantAtLeast(io, before);
      var verdict := Process();
      if verdict.Error? {
        return Some(Over(Malformed)), left, text, fds;
      }
      if verdict.Ready? {
        FoundWhole(io, before, text);
        EmptyIsShort(io);
        assert input[..length] == [];
        var fd := received;
        if fd.Some? && !verdict.message.request.RegisterFd? {
          return Some(Over(StrayFd)), left, text, fds;
        }
        received := None;
        return Some(Request(verdict.message, fd)), left, text, fds;
      }
      assert input[..length] == b;
      v := None;
    }

    /** iouringd_service_client_readable in the submit phase: read and parse until a request is
        whole, the socket blocks or the connection is over. The bytes `text` and the fds `fds`
        are those that the call took from the socket. */
    method Serve(answers: seq<Recv>) returns (v: Service, left: seq<Recv>, ghost text: seq<Byte>, ghost fds: seq<nat>)
      requires Valid()
      modifies this`length, this`expected, this`received, input
      ensures text <= Text(answers) && |left| <= |answers| && fds + Fds(left) == Fds(answers)
      ensures Means(io, old(input[..length]) + text, AsSeq(old(received)) + fds, v)
      ensures Resumes(left, answers) && Because(answers, left, old(length) != 0 || text != [], v)
      ensures !v.Over? ==> Valid() && text + Text(left) == Text(answers)
      ensures v.Blocked? ==>
        && input[..length] == old(input[..length]) + text && (answers != [] ==> |left| < |answers|)
        && AsSeq(received) == AsSeq(old(received)) + fds
      ensures v.Request? ==> length == 0 && received.None? && text != []
    {
      hide Decode, Want, Absorb, Text, Means, Fds, Resumes, Because, AsSeq;
      ghost var start, held := input[..length], received;
      text, left, fds := [], answers, [];
      ResumesAll(answers);
      while true
        invariant Valid() && input[..length] == start + text && AsSeq(received) == AsSeq(held) + fds
        invariant text + Text(left) == Text(answers) && |left| <= |answers| && fds + Fds(left) == Fds(answers)
        invariant Resumes(left, answers) && length == |start| + |text|
        decreases MAX_REQUEST - length
      {
        var turn;
        ghost var more, came, here := [], [], Text(left);
        ghost var was := left;
        ghost var got := length != 0;
        turn, left, more, came := Once(left);
        ResumesTwice(left, was, answers);
        if turn.Some? { BecauseKept(left, was, answers, got || more != [], turn.value); }
        Prefixed(text, more, here, Text(left));
        Regroup(start, text, more);
        Associate(AsSeq(held), fds, came);
        Associate(fds, came, Fds(left));
        text := text + more;
        fds := fds + came;
        if turn.Some? {
          return turn.value, left, text, fds;
        }
      }
    }

    /** Every call that poll leads to, until nothing more comes or the connection is over: the
        requests are those of all the bytes read, decoded at once, and every fd that came was
        handed over with its request, is still held, or goes down with the connection. */
    method ServeAll(answers: seq<Recv>) returns (requests: seq<Handed>, over: Option<Why>, ghost text: seq<Byte>)
      requires Valid() && length == 0 && received.None?
      modifies this`length, this`expected, this`received, input
      ensures text <= Text(answers)
      ensures over.None? ==>
        && text == Text(answers) && !DecodeAll(io, text).failed && MessagesOf(requests) == DecodeAll(io, text).messages
        && Valid() && input[..length] == DecodeAll(io, text).rest
        && FdsOf(requests) + AsSeq(received) == Fds(answers)
      ensures over == Some(Malformed) ==> DecodeAll(io, text) == Parsed(MessagesOf(requests), true, DecodeAll(io, text).rest)
      ensures over == Some(Ended) ==> DecodeAll(io, text) == Parsed(MessagesOf(requests), false, [])
      ensures MessagesOf(requests) <= DecodeAll(io, text).messages && FdsOf(requests) <= Fds(answers)
      ensures over.Some? ==> exists rest, got :: Because(answers, rest, got, Over(over.value))
    {
      hide Decode, Want, DecodeAll, Text, Means, Begun, Fds, FdsOf, MessagesOf, Resumes, Because;
      ResumesAll(answers);
      requests, over, text := [], None, [];
      BegunNothing(io);
      NoneHanded();
      var left := answers;
      ghost var done, part: seq<Byte> := [], [];
      while left != []
        invariant Valid() && input[..length] == part && text == done + part
        invariant text + Text(left) == Text(answers)
        invariant Begun(io, done, MessagesOf(requests))
        invariant FdsOf(requests) + AsSeq(received) + Fds(left) == Fds(answers) && Resumes(left, answers)
        decreases |Text(left)|, |left|
      {
        ghost var here, held, got := Text(left), received, length != 0;
        var v, rest;
        ghost var more, came;
        v, rest, more, came := Serve(left);
        ResumesTwice(rest, left, answers);
        BecauseKept(rest, left, answers, got || more != [], v);
        Prefixed(text, more, here, Text(rest));
        assert done + part + more == done + (part + more);
        assert FdsOf(requests) + AsSeq(held) + (came + Fds(rest)) == FdsOf(requests) + (AsSeq(held) + came) + Fds(rest);
        text := text + more;
        part := part + more;
        left := rest;
        if v.Over? {
          BegunOver(io, done, part, AsSeq(held) + came, MessagesOf(requests), v);
          return requests, Some(v.why), text;
        }
        if v.Request? {
          BegunMore(io, done, part, AsSeq(held) + came, MessagesOf(requests), v);
          OneHanded(requests, v.message, v.fd);
          HandedOver(io, part, AsSeq(held) + came, v);
          requests := requests + [Handed(v.message, v.fd)];
          done, part := done + part, [];
          assert text == done + part;
        }
      }
      BegunShort(io, done, part, MessagesOf(requests));
      assert Text([]) == [] && Fds([]) == [] by { NoText(); NoFds(); }
    }

    /** One chunk goes behind what is there. */
    method Receive(chunk: seq<Byte>)
      requires length + |chunk| <= expected <= input.Length
      modifies this`length, input
      ensures length == old(length) + |chunk| && input[..length] == old(input[..length]) + chunk
    {
      var end := length;
      for i := 0 to |chunk|
        invariant forall j | 0 <= j < end :: input[j] == old(input[j])
        invariant forall j | 0 <= j < i :: input[end + j] == chunk[j]
        modifies input
      {
        input[end + i] := chunk[i];
      }
      length := end + |chunk|;
    }
  }
}
