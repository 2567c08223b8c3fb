/** The client library's half of the conversation: on one byte stream per connection the
    daemon interleaves answers to requests with completions of earlier ones, and nothing but
    the first eight bytes tells them apart. The library is proved to behave as if answers,
    completions and payloads came on channels of their own. */
module Demux {
  import opened Protocol
  import opened Wire

  const EPIPE := 32
  const EMSGSIZE := 90

  // ---- completion records ------------------------------------------------------------------

  datatype Completion = Completion(task: nat, res: int, kind: nat, payloadLength: nat)

  predicate RecordFits(c: Completion) {
    && c.task < U64 && -(U32 / 2) <= c.res < U32 / 2
    && c.kind < U16 && c.payloadLength < U16
  }

  function Record(c: Completion): (b: seq<Byte>)
    requires RecordFits(c)
    ensures |b| == 24
  {
    Bytes([MAGIC, VERSION, Low(c.task), High(c.task), Signed(c.res), Pair(c.kind, c.payloadLength)])
  }

  function ParseRecord(b: seq<Byte>): (c: Completion)
    requires |b| == 24
    ensures RecordFits(c)
  {
    var ws := Words(b);
    Completion(ws[2] + U32 * ws[3], FromSigned(ws[4]), ws[5] % U16, ws[5] / U16)
  }

  predicate HasHeader(b: seq<Byte>)
    requires |b| >= 8
  {
    Words(b[..8]) == [MAGIC, VERSION]
  }

  /** completion_record_is_valid, the header apart */
  predicate CompletionOk(c: Completion) {
    && 0 < c.task < TASK_ID_RESERVED
    && 1 <= c.kind < 15
    && if c.kind in {4, 6, 8} then
         if c.res < 0 then c.payloadLength == 0 else c.res < U16 && c.payloadLength == c.res
       else if c.kind == 12 then
         if c.res < 0 then c.payloadLength == 0 else c.res > 0
       else c.payloadLength == 0
  }

  lemma RecordRoundTrip(c: Completion)
    requires RecordFits(c)
    ensures ParseRecord(Record(c)) == c
  {
    WordsOfBytes([MAGIC, VERSION, Low(c.task), High(c.task), Signed(c.res), Pair(c.kind, c.payloadLength)]);
  }

  lemma {:induction false} HeaderOf(ws: seq<Word>, rest: seq<Byte>)
    requires |ws| >= 2
    ensures HasHeader(Bytes(ws) + rest) <==> ws[0] == MAGIC && ws[1] == VERSION
  {
    var b := Bytes(ws);
    WordsOfBytes(ws);
    WordsPrefix(b, 2);
    assert (b + rest)[..8] == b[..8];
  }

  // ---- reading the stream --------------------------------------------------------------------

  datatype Entry = Entry(completion: Completion, payload: seq<Byte>)

  /** The stream ended inside the record; or its fields are wrong; or here it is. */
  datatype Next = Cut | Broken | Next(entry: Entry, rest: seq<Byte>)

  /** read_completion_with_payload, on all the bytes the connection will ever bring. */
  function NextCompletion(w: seq<Byte>): (r: Next)
    ensures r.Next? ==> |r.rest| < |w|
  {
    if |w| < 24 then Cut
    else
      var c := ParseRecord(w[..24]);
      if !HasHeader(w) || !CompletionOk(c) then Broken
      else if |w| < 24 + c.payloadLength then Cut
      else Next(Entry(c, w[24..24 + c.payloadLength]), w[24 + c.payloadLength..])
  }

  /** The completions taken off the stream, what is left of it, and the error if any. */
  datatype Drained = Drained(entries: seq<Entry>, wire: seq<Byte>, rc: int)

  /** drain_completion_prefix */
  function Drain(w: seq<Byte>): (d: Drained)
    ensures w == [] ==> d.rc != 0
    decreases |w|
  {
    if |w| == 0 then Drained([], w, -EPIPE)
    else if |w| < 8 then Drained([], w, -EPROTO)
    else if !HasHeader(w) then Drained([], w, 0)
    else
      match NextCompletion(w)
      case Cut => Drained([], [], -EPIPE)
      case Broken => Drained([], w[24..], -EPROTO)
      case Next(e, rest) => var d := Drain(rest); d.(entries := [e] + d.entries)
  }

  lemma DrainOnce(w: seq<Byte>)
    ensures
      var d := Drain(w);
      if |w| == 0 then d == Drained([], w, -EPIPE)
      else if |w| < 8 then d == Drained([], w, -EPROTO)
      else if !HasHeader(w) then d == Drained([], w, 0)
      else match NextCompletion(w)
           case Cut => d == Drained([], [], -EPIPE)
           case Broken => d == Drained([], w[24..], -EPROTO)
           case Next(e, rest) => d == Drain(rest).(entries := [e] + Drain(rest).entries)
  {
  }

  // ---- what the daemon sends --------------------------------------------------------------------

  datatype Item = Event(entry: Entry) | Answer(bytes: seq<Byte>)

  predicate ItemOk(i: Item) {
    match i
    case Event(e) => RecordFits(e.completion) && CompletionOk(e.completion) && |e.payload| == e.completion.payloadLength
    case Answer(b) => |b| >= 8 && !HasHeader(b)
  }

  function Print(i: Item): (b: seq<Byte>)
    requires ItemOk(i)
    ensures |b| >= 8
  {
    match i
    case Event(e) => Record(e.completion) + e.payload
    case Answer(b) => b
  }

  function PrintAll(items: seq<Item>): seq<Byte>
    requires forall i | i in items :: ItemOk(i)
  {
    if items == [] then [] else Print(items[0]) + PrintAll(items[1..])
  }

  function Events(items: seq<Item>): seq<Entry> {
    if items == [] then []
    else if items[0].Event? then [items[0].entry] + Events(items[1..])
    else Events(items[1..])
  }

  function Answers(items: seq<Item>): seq<seq<Byte>> {
    if items == [] then []
    else if items[0].Answer? then [items[0].bytes] + Answers(items[1..])
    else Answers(items[1..])
  }

  /** The number of completions before the first answer. */
  function Lead(items: seq<Item>): (n: nat)
    ensures n <= |items| && (n < |items| ==> items[n].Answer?)
  {
    if items == [] || items[0].Answer? then 0 else 1 + Lead(items[1..])
  }

  lemma NextOfEvent(e: Entry, rest: seq<Byte>)
    requires ItemOk(Event(e))
    ensures HasHeader(Print(Event(e)) + rest)
    ensures NextCompletion(Print(Event(e)) + rest) == Next(e, rest)
  {
    var c := e.completion;
    var w := Print(Event(e)) + rest;
    assert w == Record(c) + (e.payload + rest);
    HeaderOf([MAGIC, VERSION, Low(c.task), High(c.task), Signed(c.res), Pair(c.kind, c.payloadLength)],
             e.payload + rest);
    RecordRoundTrip(c);
    assert w[..24] == Record(c);
    assert w[24..24 + c.payloadLength] == e.payload && w[24 + c.payloadLength..] == rest;
  }

  /** Part of a completion is never taken for one. */
  lemma CutEvent(e: Entry, k: nat)
    requires ItemOk(Event(e)) && k < |Print(Event(e))|
    ensures NextCompletion(Print(Event(e))[..k]).Cut?
    ensures k >= 8 ==> HasHeader(Print(Event(e))[..k])
  {
    var c := e.completion;
    var whole := Print(Event(e));
    NextOfEvent(e, []);
    assert whole + [] == whole;
    RecordRoundTrip(c);
    if k >= 8 { assert whole[..k][..8] == whole[..8]; }
    if k >= 24 { assert whole[..k][..24] == Record(c); }
  }

  /** `w` is what arrives of `items` and a last item `cut` that does not arrive whole. */
  predicate Arrives(w: seq<Byte>, items: seq<Item>, cut: Item) {
    && ItemOk(cut) && (forall i | i in items :: ItemOk(i))
    && var n := |PrintAll(items)|;
       && n <= |w| < n + |Print(cut)|
       && w == PrintAll(items) + Print(cut)[..|w| - n]
  }

  lemma ArrivesTail(w: seq<Byte>, items: seq<Item>, cut: Item)
    requires Arrives(w, items, cut) && items != []
    ensures ItemOk(items[0])
    ensures
      var b := Print(items[0]);
      && |b| <= |w| && w == b + w[|b|..]
      && Arrives(w[|b|..], items[1..], cut)
  {
    hide Print, ItemOk;
    var b := Print(items[0]);
    var n := |PrintAll(items)|;
    assert w[|b|..] == PrintAll(items[1..]) + Print(cut)[..|w| - n];
  }

  // ---- the library's state and calls -------------------------------------------------------------

  datatype Tagged<T> = Tagged(fd: int, value: T)
  datatype Stored = Stored(task: nat, payload: seq<Byte>)

  /** The two buffers of the library, shared by all connections, and the bytes each connection
      still has to bring. */
  datatype Lib = Lib(
    completions: seq<Tagged<Entry>>,
    payloads: seq<Tagged<Stored>>,
    wires: map<int, seq<Byte>>)

  datatype Call =
    | ReadAnswer(fd: int, length: nat)
    | Wait(fd: int)
    | ReadPayload(fd: int, completion: Completion, capacity: nat)

  datatype Result =
    | Answered(bytes: seq<Byte>)
    | Completed(completion: Completion)
    | Paid(payload: seq<Byte>)
    | Failed(rc: int)

  datatype Done = Done(lib: Lib, result: Result)

  function TagAll<T>(fd: int, xs: seq<T>): seq<Tagged<T>> {
    seq(|xs|, i requires 0 <= i < |xs| => Tagged(fd, xs[i]))
  }

  /** The entries of one connection, in order. */
  function On<T>(xs: seq<Tagged<T>>, fd: int): seq<T> {
    if xs == [] then []
    else if xs[0].fd == fd then [xs[0].value] + On(xs[1..], fd)
    else On(xs[1..], fd)
  }

  function First(xs: seq<Tagged<Entry>>, fd: int): (k: nat)
    ensures k <= |xs| && (k < |xs| ==> xs[k].fd == fd)
    ensures forall i | 0 <= i < k :: xs[i].fd != fd
  {
    if xs == [] || xs[0].fd == fd then 0 else 1 + First(xs[1..], fd)
  }

  predicate IsOf(x: Tagged<Stored>, fd: int, task: nat) {
    x.fd == fd && x.value.task == task
  }

  function FirstOf(xs: seq<Tagged<Stored>>, fd: int, task: nat): (k: nat)
    ensures k <= |xs| && (k < |xs| ==> IsOf(xs[k], fd, task))
    ensures forall i | 0 <= i < k :: !IsOf(xs[i], fd, task)
  {
    if xs == [] || IsOf(xs[0], fd, task) then 0 else 1 + FirstOf(xs[1..], fd, task)
  }

  function Without<T>(xs: seq<T>, k: nat): (r: seq<T>)
    requires k < |xs|
    ensures |r| == |xs| - 1
  {
    xs[..k] + xs[k + 1..]
  }

  /** The completion goes to the caller, its payload to the payload list. */
  function Hand(s: Lib, fd: int, e: Entry): Done {
    Done(if e.payload == [] then s
         else s.(payloads := s.payloads + [Tagged(fd, Stored(e.completion.task, e.payload))]),
         Completed(e.completion))
  }

  /** drain_completion_prefix, then read_full: the reading half of every request. */
  function AnswerStep(s: Lib, fd: int, n: nat): Done
    requires fd in s.wires
  {
    var d := Drain(s.wires[fd]);
    var s1 := s.(completions := s.completions + TagAll(fd, d.entries), wires := s.wires[fd := d.wire]);
    if d.rc != 0 then Done(s1, Failed(d.rc))
    else if |d.wire| < n then Done(s1.(wires := s.wires[fd := []]), Failed(-EPIPE))
    else Done(s1.(wires := s.wires[fd := d.wire[n..]]), Answered(d.wire[..n]))
  }

  /** iouringd_wait_completion */
  function WaitStep(s: Lib, fd: int): Done
    requires fd in s.wires
  {
    var k := First(s.completions, fd);
    if k < |s.completions| then
      Hand(s.(completions := Without(s.completions, k)), fd, s.completions[k].value)
    else
      match NextCompletion(s.wires[fd])
      case Cut => Done(s.(wires := s.wires[fd := []]), Failed(-EPIPE))
      case Broken => Done(s.(wires := s.wires[fd := s.wires[fd][24..]]), Failed(-EPROTO))
      case Next(e, rest) => Hand(s.(wires := s.wires[fd := rest]), fd, e)
  }

  /** What can be told from the caller's arguments alone. */
  function PayloadArguments(c: Completion, capacity: nat): Option<Result> {
    if c.kind !in {4, 6, 8, 12} then Some(Failed(-EINVAL))
    else if c.payloadLength == 0 then Some(Paid([]))
    else if capacity < c.payloadLength then Some(Failed(-EMSGSIZE))
    else None
  }

  /** iouringd_read_completion_payload */
  function PayloadStep(s: Lib, fd: int, c: Completion, capacity: nat): Done {
    var early := PayloadArguments(c, capacity);
    if early.Some? then Done(s, early.value)
    else
      var k := FirstOf(s.payloads, fd, c.task);
      if k < |s.payloads| then
        Done(s.(payloads := Without(s.payloads, k)), Paid(s.payloads[k].value.payload))
      else Done(s, Failed(-EPROTO))
  }

  function Do(s: Lib, call: Call): (d: Done)
    requires call.fd in s.wires
    ensures d.lib.wires.Keys == s.wires.Keys
  {
    match call
    case ReadAnswer(fd, n) => AnswerStep(s, fd, n)
    case Wait(fd) => WaitStep(s, fd)
    case ReadPayload(fd, c, capacity) => PayloadStep(s, fd, c, capacity)
  }

  // ---- the reference: three separate channels -------------------------------------------------------

  /** The completions and the answers still to come, and the payloads handed over. */
  datatype Channels = Channels(events: seq<Entry>, answers: seq<seq<Byte>>, held: map<nat, seq<Byte>>)

  datatype Reply = Reply(channels: Channels, result: Result)

  function Ideal(ch: Channels, call: Call): Reply {
    match call
    case ReadAnswer(_, _) =>
      if ch.answers == [] then Reply(ch, Failed(-EPIPE))
      else Reply(ch.(answers := ch.answers[1..]), Answered(ch.answers[0]))
    case Wait(_) =>
      if ch.events == [] then Reply(ch, Failed(-EPIPE))
      else
        var e := ch.events[0];
        Reply(ch.(events := ch.events[1..],
                  held := if e.payload == [] then ch.held else ch.held[e.completion.task := e.payload]),
              Completed(e.completion))
    case ReadPayload(_, c, capacity) =>
      if !Bearing(c) then Reply(ch, Failed(-EINVAL))
      else if c.payloadLength == 0 then Reply(ch, Paid([]))
      else if c.payloadLength > capacity then Reply(ch, Failed(-EMSGSIZE))
      else if c.task in ch.held then Reply(ch.(held := ch.held - {c.task}), Paid(ch.held[c.task]))
      else Reply(ch, Failed(-EPROTO))
  }

  /** The kinds of task whose completions can bring bytes: the reads, and ACCEPT. */
  predicate Bearing(c: Completion) {
    || c.kind == TaskCode(KSockRead) || c.kind == TaskCode(KSockReadFixed)
    || c.kind == TaskCode(KFileRead) || c.kind == TaskCode(KAccept)
  }

  lemma ArgumentsMean(c: Completion, capacity: nat)
    ensures PayloadArguments(c, capacity) ==
      if !Bearing(c) then Some(Failed(-EINVAL))
      else if c.payloadLength == 0 then Some(Paid([]))
      else if c.payloadLength > capacity then Some(Failed(-EMSGSIZE))
      else None
  {
  }

  /** At the end of a stream the library may report EPROTO where the reference has EPIPE. */
  predicate Agree(a: Result, b: Result) {
    a == b || (a.Failed? && b == Failed(-EPIPE))
  }

  /** A caller reads the answer to each request before it does anything else: it waits for a
      completion only if no answer comes first, and asks for the size that the next answer
      has. A connection that has ended may be asked for anything. */
  predicate Disciplined(s: Lib, items: seq<Item>, cut: Item, call: Call)
    requires call.fd in s.wires
  {
    var all := items + [cut];
    s.wires[call.fd] == [] ||
    match call
    case ReadAnswer(_, n) => Lead(all) < |all| ==> |all[Lead(all)].bytes| == n
    case Wait(fd) => On(s.completions, fd) != [] || all[0].Event?
    case ReadPayload(_, _, _) => true
  }

  /** The items a call leaves on the stream. */
  function Left(s: Lib, items: seq<Item>, call: Call): seq<Item> {
    match call
    case ReadAnswer(_, _) => if Lead(items) < |items| then items[Lead(items) + 1..] else []
    case Wait(fd) => if On(s.completions, fd) == [] && items != [] then items[1..] else items
    case ReadPayload(_, _, _) => items
  }

  /** The payload list `xs` of a connection is the map `held`. */
  predicate Holds(xs: seq<Stored>, held: map<nat, seq<Byte>>) {
    && (forall i | 0 <= i < |xs| :: xs[i].task in held && held[xs[i].task] == xs[i].payload)
    && (forall t | t in held :: exists i | 0 <= i < |xs| :: xs[i].task == t)
    && (forall i, j | 0 <= i < j < |xs| :: xs[i].task != xs[j].task)
  }

  /** Task ids are not used twice, among completions to come and payloads held. */
  predicate Fresh(events: seq<Entry>, held: map<nat, seq<Byte>>) {
    && (forall i | 0 <= i < |events| :: events[i].completion.task !in held)
    && (forall i, j | 0 <= i < j < |events| ::
          events[i].completion.task != events[j].completion.task)
  }

  /** Connection `fd` of the library stands for channels `ch`. */
  predicate Refines(s: Lib, fd: int, items: seq<Item>, cut: Item, ch: Channels) {
    && fd in s.wires && Arrives(s.wires[fd], items, cut)
    && ch.events == On(s.completions, fd) + Events(items)
    && ch.answers == Answers(items)
    && Holds(On(s.payloads, fd), ch.held)
    && Fresh(ch.events, ch.held)
  }

  // ---- lists by connection ------------------------------------------------------------------------------

  lemma {:induction false} OnAppend<T>(xs: seq<Tagged<T>>, ys: seq<Tagged<T>>, fd: int)
    ensures On(xs + ys, fd) == On(xs, fd) + On(ys, fd)
  {
    if xs == [] {
      assert xs + ys == ys;
    } else {
      OnAppend(xs[1..], ys, fd);
      assert (xs + ys)[1..] == xs[1..] + ys;
    }
  }

  lemma {:induction false} OnTagged<T>(fd: int, xs: seq<T>, other: int)
    ensures On(TagAll(fd, xs), other) == if other == fd then xs else []
  {
    if xs != [] {
      OnTagged(fd, xs[1..], other);
      assert TagAll(fd, xs)[1..] == TagAll(fd, xs[1..]);
    }
  }

  lemma {:induction false} OnNone<T>(xs: seq<Tagged<T>>, fd: int)
    requires forall i | 0 <= i < |xs| :: xs[i].fd != fd
    ensures On(xs, fd) == []
  {
    if xs != [] { OnNone(xs[1..], fd); }
  }

  /** Taking an entry out: nothing changes for the other connections. */
  lemma OnSplit<T>(xs: seq<Tagged<T>>, k: nat, fd: int)
    requires k < |xs|
    ensures On(Without(xs, k), fd) == On(xs[..k], fd) + On(xs[k + 1..], fd)
    ensures On(xs, fd) ==
      On(xs[..k], fd) + (if xs[k].fd == fd then [xs[k].value] else []) + On(xs[k + 1..], fd)
  {
    OnAppend(xs[..k], xs[k + 1..], fd);
    OnAppend(xs[..k], xs[k..], fd);
    assert xs == xs[..k] + xs[k..];
    assert xs[k..][1..] == xs[k + 1..];
  }

  lemma FirstIsNext(xs: seq<Tagged<Entry>>, fd: int)
    ensures
      var k := First(xs, fd);
      if k < |xs| then On(xs, fd) == [xs[k].value] + On(Without(xs, k), fd) else On(xs, fd) == []
  {
    var k := First(xs, fd);
    OnNone(xs[..k], fd);
    if k < |xs| {
      OnSplit(xs, k, fd);
    } else {
      assert xs[..k] == xs;
    }
  }

  // ---- draining ---------------------------------------------------------------------------------------------

  /** The header test sees only the first eight bytes. */
  lemma {:induction false} HeaderLocal(b: seq<Byte>, w: seq<Byte>)
    requires |b| >= 8 && |w| >= 8 && (b <= w || w <= b)
    ensures HasHeader(b) == HasHeader(w)
  {
    assert b[..8] == w[..8];
  }

  /** Draining takes exactly the completions before the next answer, and stops in front of it;
      without an answer it takes every whole completion. */
  lemma {:induction false} DrainItems(w: seq<Byte>, items: seq<Item>, cut: Item)
    requires Arrives(w, items, cut)
    ensures
      var d, n := Drain(w), Lead(items);
      && d.entries == Events(items[..n])
      && (n < |items| ==> d.rc == 0 && Arrives(d.wire, items[n..], cut))
      && (n == |items| ==> Arrives(d.wire, [], cut) && (d.rc == 0 ==> cut.Answer? && d.wire != []))
    decreases |items|
  {
    hide Arrives, PrintAll, HasHeader, NextCompletion, Record, CompletionOk;
    if items == [] {
      DrainCut(w, cut);
    } else {
      ArrivesTail(w, items, cut);
      var b := Print(items[0]);
      var rest := w[|b|..];
      match items[0]
      case Event(e) =>
        NextOfEvent(e, rest);
        DrainItems(rest, items[1..], cut);
        var n := Lead(items);
        assert items[..n][1..] == items[1..][..n - 1] && items[n..] == items[1..][n - 1..];
      case Answer(_) =>
        HeaderLocal(b, w);
        assert items[0..] == items && items[..0] == [];
    }
  }

  lemma {:induction false} DrainCut(w: seq<Byte>, cut: Item)
    requires Arrives(w, [], cut)
    ensures
      var d := Drain(w);
      && d.entries == [] && Arrives(d.wire, [], cut)
      && (d.rc == 0 ==> cut.Answer? && d.wire != [])
  {
    hide Record, CompletionOk, HasHeader, NextCompletion;
    var b := Print(cut);
    assert w == b[..|w|];
    if |w| >= 8 {
      match cut
      case Event(e) =>
        CutEvent(e, |w|);
        assert Arrives([], [], cut);
      case Answer(_) =>
        HeaderLocal(w, b);
    }
  }

  lemma {:induction false} EventsAppend(a: seq<Item>, b: seq<Item>)
    ensures Events(a + b) == Events(a) + Events(b)
  {
    if a == [] {
      assert a + b == b;
    } else {
      EventsAppend(a[1..], b);
      assert (a + b)[1..] == a[1..] + b;
    }
  }

  lemma {:induction false} AnswersAppend(a: seq<Item>, b: seq<Item>)
    ensures Answers(a + b) == Answers(a) + Answers(b)
  {
    if a == [] {
      assert a + b == b;
    } else {
      AnswersAppend(a[1..], b);
      assert (a + b)[1..] == a[1..] + b;
    }
  }

  lemma {:induction false} LeadHasNoAnswers(items: seq<Item>)
    ensures Answers(items[..Lead(items)]) == []
  {
    var n := Lead(items);
    if n != 0 {
      LeadHasNoAnswers(items[1..]);
      assert items[..n][1..] == items[1..][..n - 1];
    }
  }

  lemma {:induction false} LeadSplit(items: seq<Item>)
    ensures
      var n := Lead(items);
      if n < |items| then
        && Events(items) == Events(items[..n]) + Events(items[n + 1..])
        && Answers(items) == [items[n].bytes] + Answers(items[n + 1..])
      else Events(items) == Events(items[..n]) && Answers(items) == []
  {
    var n := Lead(items);
    LeadHasNoAnswers(items);
    var before, after := items[..n], items[n..];
    assert items == before + after;
    EventsAppend(before, after);
    AnswersAppend(before, after);
    if n < |items| { assert after[1..] == items[n + 1..] && after[0] == items[n]; }
  }

  lemma {:induction false} LeadPrefix(items: seq<Item>, cut: Item)
    ensures
      var n, all := Lead(items), items + [cut];
      && (n < |items| ==> Lead(all) == n && all[n] == items[n])
      && (n == |items| && cut.Answer? ==> Lead(all) == n && all[n] == cut)
  {
    var all := items + [cut];
    if items != [] && items[0].Event? {
      LeadPrefix(items[1..], cut);
      assert all[1..] == items[1..] + [cut];
    }
  }

  // ---- one call --------------------------------------------------------------------------------------------------

  /** The new buffered completions of `fd`, and of no other connection. */
  lemma Queued(xs: seq<Tagged<Entry>>, fd: int, es: seq<Entry>, other: int)
    ensures On(xs + TagAll(fd, es), other) == On(xs, other) + if other == fd then es else []
  {
    OnAppend(xs, TagAll(fd, es), other);
    OnTagged(fd, es, other);
  }

  lemma AnswerPrint(i: Item)
    requires ItemOk(i) && i.Answer?
    ensures Print(i) == i.bytes
  {
  }

  lemma {:induction false} AnswerRefines(s: Lib, fd: int, items: seq<Item>, cut: Item, ch: Channels, n: nat)
    requires Refines(s, fd, items, cut, ch) && Disciplined(s, items, cut, ReadAnswer(fd, n))
    ensures
      var call := ReadAnswer(fd, n);
      var done, ideal := AnswerStep(s, fd, n), Ideal(ch, call);
      Agree(done.result, ideal.result) && Refines(done.lib, fd, Left(s, items, call), cut, ideal.channels)
  {
    hide Drain, Holds, Fresh, ItemOk, Events, Answers, PrintAll, Print, On;
    var w := s.wires[fd];
    var d, k := Drain(w), Lead(items);
    DrainItems(w, items, cut);
    LeadSplit(items);
    LeadPrefix(items, cut);
    Queued(s.completions, fd, d.entries, fd);
    if k < |items| {
      ArrivesTail(w, items, cut);
      var after := items[k..];
      ArrivesTail(d.wire, after, cut);
      assert after[1..] == items[k + 1..] && after[0] == items[k];
      AnswerPrint(items[k]);
    } else {
      AnswerMissing(s, fd, items, cut, ch, n);
    }
  }

  lemma {:induction false} AnswerMissing(s: Lib, fd: int, items: seq<Item>, cut: Item, ch: Channels, n: nat)
    requires Refines(s, fd, items, cut, ch) && Disciplined(s, items, cut, ReadAnswer(fd, n))
    requires Lead(items) == |items|
    ensures
      var done := AnswerStep(s, fd, n);
      done.result.Failed? && ch.answers == [] && Refines(done.lib, fd, [], cut, ch)
  {
    hide Drain, Holds, Fresh, ItemOk, Events, Answers, PrintAll, Print, On;
    var w := s.wires[fd];
    var d := Drain(w);
    DrainItems(w, items, cut);
    LeadSplit(items);
    LeadPrefix(items, cut);
    Queued(s.completions, fd, d.entries, fd);
    CutShorter(d.wire, cut);
    if d.rc == 0 { AnswerPrint(cut); }
    assert items[..|items|] == items;
  }

  lemma CutShorter(w: seq<Byte>, cut: Item)
    requires Arrives(w, [], cut)
    ensures |w| < |Print(cut)| && Arrives([], [], cut) && Events([]) == [] && Answers([]) == []
  {
  }

  lemma HoldsMore(xs: seq<Stored>, held: map<nat, seq<Byte>>, t: nat, p: seq<Byte>)
    requires Holds(xs, held) && t !in held
    ensures Holds(xs + [Stored(t, p)], held[t := p])
  {
    var ys, more := xs + [Stored(t, p)], held[t := p];
    forall u | u in more ensures exists i | 0 <= i < |ys| :: ys[i].task == u {
      if u == t {
        assert ys[|xs|].task == t;
      } else {
        var i :| 0 <= i < |xs| && xs[i].task == u;
        assert ys[i].task == u;
      }
    }
  }

  lemma HoldsLess(xs: seq<Stored>, held: map<nat, seq<Byte>>, k: nat)
    requires Holds(xs, held) && k < |xs|
    ensures Holds(Without(xs, k), held - {xs[k].task})
  {
    var ys, t := Without(xs, k), xs[k].task;
    var less := held - {t};
    forall u | u in less ensures exists i | 0 <= i < |ys| :: ys[i].task == u {
      var i :| 0 <= i < |xs| && xs[i].task == u;
      assert ys[if i < k then i else i - 1].task == u;
    }
  }

  lemma FreshTail(events: seq<Entry>, held: map<nat, seq<Byte>>, p: seq<Byte>)
    requires events != [] && Fresh(events, held)
    ensures Fresh(events[1..], held[events[0].completion.task := p]) && Fresh(events[1..], held)
    ensures events[0].completion.task !in held
  {
  }

  /** A completion is handed over, wherever it came from. */
  lemma {:induction false} HandRefines(s: Lib, fd: int, items: seq<Item>, cut: Item, ch: Channels, e: Entry)
    requires fd in s.wires && Arrives(s.wires[fd], items, cut)
    requires ch.events == [e] + (On(s.completions, fd) + Events(items)) && ch.answers == Answers(items)
    requires Holds(On(s.payloads, fd), ch.held) && Fresh(ch.events, ch.held)
    ensures
      var done, ideal := Hand(s, fd, e), Ideal(ch, Wait(fd));
      done.result == ideal.result && Refines(done.lib, fd, items, cut, ideal.channels)
  {
    hide Holds, Events, Answers, Arrives, Fresh;
    var t := e.completion.task;
    FreshTail(ch.events, ch.held, e.payload);
    assert ch.events[0] == e && ch.events[1..] == On(s.completions, fd) + Events(items);
    HoldsMore(On(s.payloads, fd), ch.held, t, e.payload);
    var x := Tagged(fd, Stored(t, e.payload));
    OnAppend(s.payloads, [x], fd);
    assert [x][1..] == [] && On([x], fd) == [x.value];
    assert Holds(On(Hand(s, fd, e).lib.payloads, fd), Ideal(ch, Wait(fd)).channels.held);
  }

  lemma {:induction false} WaitRefines(s: Lib, fd: int, items: seq<Item>, cut: Item, ch: Channels)
    requires Refines(s, fd, items, cut, ch) && Disciplined(s, items, cut, Wait(fd))
    ensures
      var done, ideal := WaitStep(s, fd), Ideal(ch, Wait(fd));
      && Agree(done.result, ideal.result)
      && Refines(done.lib, fd, Left(s, items, Wait(fd)), cut, ideal.channels)
  {
    hide Holds, Fresh, Answers, NextCompletion, ItemOk, Print, PrintAll;
    var k := First(s.completions, fd);
    FirstIsNext(s.completions, fd);
    var w := s.wires[fd];
    if k < |s.completions| {
      HandRefines(s.(completions := Without(s.completions, k)), fd, items, cut, ch, s.completions[k].value);
    } else if items != [] {
      ArrivesTail(w, items, cut);
      assert (items + [cut])[0] == items[0];
      var e := items[0].entry;
      var rest := w[|Print(items[0])|..];
      assert items[0] == Event(e);
      NextOfEvent(e, rest);
      AnswersOfEvent(items);
      HandRefines(s.(wires := s.wires[fd := rest]), fd, items[1..], cut, ch, e);
    } else {
      CutShorter(w, cut);
      WaitCut(w, cut);
    }
  }

  lemma AnswersOfEvent(items: seq<Item>)
    requires items != [] && items[0].Event?
    ensures Answers(items) == Answers(items[1..])
  {
  }

  lemma WaitCut(w: seq<Byte>, cut: Item)
    requires Arrives(w, [], cut) && (w == [] || cut.Event?)
    ensures NextCompletion(w).Cut?
  {
    if w != [] {
      CutEvent(cut.entry, |w|);
      assert w == Print(cut)[..|w|];
    }
  }

  /** The first payload stored for the task is the one of this connection's list. */
  lemma {:induction false} PayloadFound(xs: seq<Tagged<Stored>>, fd: int, task: nat, held: map<nat, seq<Byte>>)
    requires Holds(On(xs, fd), held)
    ensures
      var k := FirstOf(xs, fd, task);
      if k < |xs| then
        && task in held && held[task] == xs[k].value.payload
        && Holds(On(Without(xs, k), fd), held - {task})
      else task !in held
  {
    hide On;
    var k := FirstOf(xs, fd, task);
    if k < |xs| {
      OnSplit(xs, k, fd);
      var j, ys := |On(xs[..k], fd)|, On(xs, fd);
      assert ys[j] == xs[k].value;
      assert Without(ys, j) == On(Without(xs, k), fd);
      HoldsLess(ys, held, j);
    } else {
      NoneStored(xs, fd, task);
    }
  }

  lemma FreshLess(events: seq<Entry>, held: map<nat, seq<Byte>>, task: nat)
    requires Fresh(events, held)
    ensures Fresh(events, held - {task})
  {
  }

  lemma {:induction false} PayloadRefines(s: Lib, fd: int, items: seq<Item>, cut: Item, ch: Channels,
                                         c: Completion, capacity: nat)
    requires Refines(s, fd, items, cut, ch)
    ensures
      var call := ReadPayload(fd, c, capacity);
      var done, ideal := PayloadStep(s, fd, c, capacity), Ideal(ch, call);
      done.result == ideal.result && Refines(done.lib, fd, items, cut, ideal.channels)
  {
    hide Arrives, Events, Answers, On, PayloadArguments, Bearing, Holds, Fresh, FirstOf;
    ArgumentsMean(c, capacity);
    PayloadFound(s.payloads, fd, c.task, ch.held);
    FreshLess(ch.events, ch.held, c.task);
  }

  lemma {:induction false} NoneStored(xs: seq<Tagged<Stored>>, fd: int, task: nat)
    requires forall i | 0 <= i < |xs| :: !IsOf(xs[i], fd, task)
    ensures forall j | 0 <= j < |On(xs, fd)| :: On(xs, fd)[j].task != task
  {
    if xs != [] { NoneStored(xs[1..], fd, task); }
  }

  /** What happens on one connection is nothing to another. */
  lemma {:induction false} OthersUntouched(s: Lib, call: Call, fd: int)
    requires call.fd in s.wires && fd in s.wires && fd != call.fd
    ensures
      var s' := Do(s, call).lib;
      && s'.wires[fd] == s.wires[fd]
      && On(s'.completions, fd) == On(s.completions, fd)
      && On(s'.payloads, fd) == On(s.payloads, fd)
  {
    hide Drain, NextCompletion, First, FirstOf;
    match call
    case ReadAnswer(f, n) =>
      Queued(s.completions, f, Drain(s.wires[f]).entries, fd);
    case Wait(f) =>
      var k := First(s.completions, f);
      var e := if k < |s.completions| then s.completions[k].value
               else match NextCompletion(s.wires[f]) case Next(e, _) => e case _ => Entry(Completion(0, 0, 0, 0), []);
      OnAppend(s.payloads, [Tagged(f, Stored(e.completion.task, e.payload))], fd);
      if k < |s.completions| { OnSplit(s.completions, k, fd); }
    case ReadPayload(f, c, _) =>
      var k := FirstOf(s.payloads, f, c.task);
      if k < |s.payloads| { OnSplit(s.payloads, k, fd); }
  }

  // ---- every run ----------------------------------------------------------------------------------------------------

  /** One call against the channels of `fd`. */
  lemma {:induction false} CallRefines(s: Lib, fd: int, items: seq<Item>, cut: Item, ch: Channels, call: Call)
    requires Refines(s, fd, items, cut, ch) && call.fd == fd && Disciplined(s, items, cut, call)
    ensures
      var done, ideal := Do(s, call), Ideal(ch, call);
      && Agree(done.result, ideal.result)
      && Refines(done.lib, fd, Left(s, items, call), cut, ideal.channels)
  {
    hide Refines, Ideal, Drain, NextCompletion, Left, Disciplined;
    assert fd in s.wires by { RefinesKnown(s, fd, items, cut, ch); }
    match call
    case ReadAnswer(_, n) => AnswerRefines(s, fd, items, cut, ch, n);
    case Wait(_) => WaitRefines(s, fd, items, cut, ch);
    case ReadPayload(_, c, capacity) =>
      PayloadRefines(s, fd, items, cut, ch, c, capacity);
      PayloadLeaves(s, items, call);
  }

  lemma RefinesKnown(s: Lib, fd: int, items: seq<Item>, cut: Item, ch: Channels)
    requires Refines(s, fd, items, cut, ch)
    ensures fd in s.wires
  {
  }

  lemma PayloadLeaves(s: Lib, items: seq<Item>, call: Call)
    requires call.ReadPayload?
    ensures Left(s, items, call) == items
  {
  }

  lemma OthersRefine(s: Lib, fd: int, items: seq<Item>, cut: Item, ch: Channels, call: Call)
    requires Refines(s, fd, items, cut, ch) && call.fd in s.wires && call.fd != fd
    ensures Refines(Do(s, call).lib, fd, items, cut, ch)
  {
    hide Arrives, On, Holds, Fresh, Do, Events, Answers;
    OthersUntouched(s, call, fd);
  }

  /** The results of the calls on `fd`, among calls on any connection. */
  function Results(s: Lib, calls: seq<Call>, fd: int): seq<Result>
    requires forall c | c in calls :: c.fd in s.wires
    decreases |calls|
  {
    if calls == [] then []
    else
      var done := Do(s, calls[0]);
      var rest := Results(done.lib, calls[1..], fd);
      if calls[0].fd == fd then [done.result] + rest else rest
  }

  function IdealResults(ch: Channels, calls: seq<Call>, fd: int): seq<Result>
    decreases |calls|
  {
    if calls == [] then []
    else if calls[0].fd == fd then
      var reply := Ideal(ch, calls[0]);
      [reply.result] + IdealResults(reply.channels, calls[1..], fd)
    else IdealResults(ch, calls[1..], fd)
  }

  /** The caller keeps the discipline on `fd` all along. */
  predicate AllDisciplined(s: Lib, items: seq<Item>, cut: Item, calls: seq<Call>, fd: int)
    requires forall c | c in calls :: c.fd in s.wires
    decreases |calls|
  {
    calls == [] ||
    var call := calls[0];
    var s' := Do(s, call).lib;
    && (call.fd == fd ==> Disciplined(s, items, cut, call))
    && AllDisciplined(s', if call.fd == fd then Left(s, items, call) else items, cut, calls[1..], fd)
  }

  lemma {:induction false} RunRefines(s: Lib, fd: int, items: seq<Item>, cut: Item, ch: Channels, calls: seq<Call>)
    requires Refines(s, fd, items, cut, ch)
    requires (forall c | c in calls :: c.fd in s.wires) && AllDisciplined(s, items, cut, calls, fd)
    ensures
      var got, want := Results(s, calls, fd), IdealResults(ch, calls, fd);
      |got| == |want| && forall i | 0 <= i < |got| :: Agree(got[i], want[i])
    decreases |calls|
  {
    hide Refines, Do, Ideal, Disciplined, Agree, Left;
    if calls != [] {
      var call := calls[0];
      var s' := Do(s, call).lib;
      if call.fd == fd {
        CallRefines(s, fd, items, cut, ch, call);
        RunRefines(s', fd, Left(s, items, call), cut, Ideal(ch, call).channels, calls[1..]);
      } else {
        OthersRefine(s, fd, items, cut, ch, call);
        RunRefines(s', fd, items, cut, ch, calls[1..]);
      }
    }
  }

  /** Demultiplexing is correct. The daemon sends any interleaving `items` of completions and
      answers on connection `fd`, and the stream may end inside one more item. However the
      application's calls on this and other connections are ordered, those on `fd` return
      what they would if completions and answers came separately. */
  lemma {:induction false} Demultiplexing(wires: map<int, seq<Byte>>, fd: int, items: seq<Item>, cut: Item, calls: seq<Call>)
    requires fd in wires && Arrives(wires[fd], items, cut) && Fresh(Events(items), map[])
    requires forall c | c in calls :: c.fd in wires
    requires AllDisciplined(Lib([], [], wires), items, cut, calls, fd)
    ensures
      var got := Results(Lib([], [], wires), calls, fd);
      var want := IdealResults(Channels(Events(items), Answers(items), map[]), calls, fd);
      |got| == |want| && forall i | 0 <= i < |got| :: Agree(got[i], want[i])
  {
    hide AllDisciplined, Results, IdealResults, Arrives, Events, Answers;
    RunRefines(Lib([], [], wires), fd, items, cut, Channels(Events(items), Answers(items), map[]), calls);
  }

  // ---- what that means for the application ------------------------------------------------------------------------------

  function CompletionsIn(rs: seq<Result>): seq<Completion> {
    if rs == [] then []
    else if rs[0].Completed? then [rs[0].completion] + CompletionsIn(rs[1..])
    else CompletionsIn(rs[1..])
  }

  function AnswersIn(rs: seq<Result>): seq<seq<Byte>> {
    if rs == [] then []
    else if rs[0].Answered? then [rs[0].bytes] + AnswersIn(rs[1..])
    else AnswersIn(rs[1..])
  }

  function Waits(calls: seq<Call>, fd: int): nat {
    if calls == [] then 0
    else (if calls[0] == Wait(fd) then 1 else 0) + Waits(calls[1..], fd)
  }

  function Asks(calls: seq<Call>, fd: int): nat {
    if calls == [] then 0
    else (if calls[0].ReadAnswer? && calls[0].fd == fd then 1 else 0) + Asks(calls[1..], fd)
  }

  function Min(a: nat, b: nat): nat {
    if a < b then a else b
  }

  function CompletionsOf(es: seq<Entry>): seq<Completion> {
    seq(|es|, i requires 0 <= i < |es| => es[i].completion)
  }

  lemma {:induction false} AgreeIn(got: seq<Result>, want: seq<Result>)
    requires |got| == |want| && forall i | 0 <= i < |got| :: Agree(got[i], want[i])
    ensures CompletionsIn(got) == CompletionsIn(want) && AnswersIn(got) == AnswersIn(want)
  {
    if got != [] {
      AgreeIn(got[1..], want[1..]);
      assert Agree(got[0], want[0]);
    }
  }

  lemma {:induction false} IdealCompletions(ch: Channels, calls: seq<Call>, fd: int)
    ensures CompletionsIn(IdealResults(ch, calls, fd)) ==
            CompletionsOf(ch.events[..Min(Waits(calls, fd), |ch.events|)])
    decreases |calls|
  {
    if calls != [] {
      if calls[0].fd == fd {
        var reply := Ideal(ch, calls[0]);
        IdealCompletions(reply.channels, calls[1..], fd);
        assert IdealResults(ch, calls, fd)[1..] == IdealResults(reply.channels, calls[1..], fd);
        if calls[0].Wait? && ch.events != [] {
          var n := Min(Waits(calls, fd), |ch.events|);
          assert ch.events[..n] == [ch.events[0]] + ch.events[1..][..n - 1];
        }
      } else {
        IdealCompletions(ch, calls[1..], fd);
      }
    }
  }

  lemma {:induction false} IdealAnswers(ch: Channels, calls: seq<Call>, fd: int)
    ensures AnswersIn(IdealResults(ch, calls, fd)) == ch.answers[..Min(Asks(calls, fd), |ch.answers|)]
    decreases |calls|
  {
    if calls != [] {
      if calls[0].fd == fd {
        var reply := Ideal(ch, calls[0]);
        IdealAnswers(reply.channels, calls[1..], fd);
        assert IdealResults(ch, calls, fd)[1..] == IdealResults(reply.channels, calls[1..], fd);
        if calls[0].ReadAnswer? && ch.answers != [] {
          var n := Min(Asks(calls, fd), |ch.answers|);
          assert ch.answers[..n] == [ch.answers[0]] + ch.answers[1..][..n - 1];
        }
      } else {
        IdealAnswers(ch, calls[1..], fd);
      }
    }
  }

  /** Waiting n times on a connection yields its first n completions, once each and in wire
      order, and n requests get the first n answers, whatever came in between. */
  lemma {:induction false} InWireOrder(wires: map<int, seq<Byte>>, fd: int, items: seq<Item>, cut: Item, calls: seq<Call>)
    requires fd in wires && Arrives(wires[fd], items, cut) && Fresh(Events(items), map[])
    requires forall c | c in calls :: c.fd in wires
    requires AllDisciplined(Lib([], [], wires), items, cut, calls, fd)
    ensures
      var got := Results(Lib([], [], wires), calls, fd);
      var events, answers := Events(items), Answers(items);
      && CompletionsIn(got) == CompletionsOf(events[..Min(Waits(calls, fd), |events|)])
      && AnswersIn(got) == answers[..Min(Asks(calls, fd), |answers|)]
  {
    hide AllDisciplined, Results, IdealResults, Arrives, Events, Answers, Agree, Fresh, CompletionsIn, AnswersIn;
    var ch := Channels(Events(items), Answers(items), map[]);
    Demultiplexing(wires, fd, items, cut, calls);
    AgreeIn(Results(Lib([], [], wires), calls, fd), IdealResults(ch, calls, fd));
    IdealCompletions(ch, calls, fd);
    IdealAnswers(ch, calls, fd);
  }

  /** A call for the payload of task `t`, with arguments that will do. */
  predicate Claims(call: Call, fd: int, t: nat) {
    call.ReadPayload? && call.fd == fd && call.completion.task == t &&
    Bearing(call.completion) && 0 < call.completion.payloadLength <= call.capacity
  }

  /** The payloads paid out for task `t`. */
  function PaidFor(ch: Channels, calls: seq<Call>, fd: int, t: nat): seq<seq<Byte>>
    decreases |calls|
  {
    if calls == [] then []
    else if calls[0].fd != fd then PaidFor(ch, calls[1..], fd, t)
    else
      var reply := Ideal(ch, calls[0]);
      (if Claims(calls[0], fd, t) && reply.result.Paid? then [reply.result.payload] else [])
      + PaidFor(reply.channels, calls[1..], fd, t)
  }

  predicate Upcoming(events: seq<Entry>, t: nat) {
    exists i | 0 <= i < |events| :: events[i].completion.task == t
  }

  lemma {:induction false} NeverPaid(ch: Channels, calls: seq<Call>, fd: int, t: nat)
    requires t !in ch.held && !Upcoming(ch.events, t)
    ensures PaidFor(ch, calls, fd, t) == []
    decreases |calls|
  {
    if calls != [] {
      if calls[0].fd == fd {
        NeverPaid(Ideal(ch, calls[0]).channels, calls[1..], fd, t);
      } else {
        NeverPaid(ch, calls[1..], fd, t);
      }
    }
  }

  /** Once its completion has been handed over, a payload is paid out to the first call that
      claims it, whole, and never again. */
  lemma {:induction false} PaidOnce(ch: Channels, calls: seq<Call>, fd: int, t: nat)
    requires Fresh(ch.events, ch.held) && t in ch.held
    ensures PaidFor(ch, calls, fd, t) == if exists c | c in calls :: Claims(c, fd, t) then [ch.held[t]] else []
    decreases |calls|
  {
    hide Bearing;
    if calls != [] {
      var call, rest := calls[0], calls[1..];
      assert calls == [call] + rest;
      if call.fd != fd {
        PaidOnce(ch, rest, fd, t);
      } else {
        var next := Ideal(ch, call).channels;
        if Claims(call, fd, t) {
          assert call in calls;
          NeverPaid(next, rest, fd, t);
        } else {
          IdealKeepsFresh(ch, call);
          PaidOnce(next, rest, fd, t);
        }
      }
    }
  }

  lemma IdealKeepsFresh(ch: Channels, call: Call)
    requires Fresh(ch.events, ch.held)
    ensures var next := Ideal(ch, call).channels; Fresh(next.events, next.held)
  {
    if call.Wait? && ch.events != [] { FreshTail(ch.events, ch.held, ch.events[0].payload); }
  }

  /** The payloads the library pays out for task `t` on connection `fd`. */
  function PaidOut(s: Lib, calls: seq<Call>, fd: int, t: nat): seq<seq<Byte>>
    requires forall c | c in calls :: c.fd in s.wires
    decreases |calls|
  {
    if calls == [] then []
    else
      var done := Do(s, calls[0]);
      (if Claims(calls[0], fd, t) && done.result.Paid? then [done.result.payload] else [])
      + PaidOut(done.lib, calls[1..], fd, t)
  }

  lemma {:induction false} PaidOutIdeally(s: Lib, fd: int, items: seq<Item>, cut: Item, ch: Channels, calls: seq<Call>, t: nat)
    requires Refines(s, fd, items, cut, ch)
    requires (forall c | c in calls :: c.fd in s.wires) && AllDisciplined(s, items, cut, calls, fd)
    ensures PaidOut(s, calls, fd, t) == PaidFor(ch, calls, fd, t)
    decreases |calls|
  {
    hide Refines, Do, Ideal, Disciplined, Left, Bearing;
    if calls != [] {
      var call := calls[0];
      var s' := Do(s, call).lib;
      if call.fd == fd {
        CallRefines(s, fd, items, cut, ch, call);
        PaidOutIdeally(s', fd, Left(s, items, call), cut, Ideal(ch, call).channels, calls[1..], t);
      } else {
        OthersRefine(s, fd, items, cut, ch, call);
        PaidOutIdeally(s', fd, items, cut, ch, calls[1..], t);
      }
    }
  }

  /** From any point of a run: a payload handed over with its completion is paid out to the
      first call that claims it, with the bytes from the wire, and never again. */
  lemma {:induction false} PayloadExactlyOnce(s: Lib, fd: int, items: seq<Item>, cut: Item, ch: Channels, calls: seq<Call>, t: nat)
    requires Refines(s, fd, items, cut, ch) && t in ch.held
    requires (forall c | c in calls :: c.fd in s.wires) && AllDisciplined(s, items, cut, calls, fd)
    ensures PaidOut(s, calls, fd, t) == if exists c | c in calls :: Claims(c, fd, t) then [ch.held[t]] else []
  {
    hide AllDisciplined, PaidOut, PaidFor, Arrives, Claims;
    PaidOutIdeally(s, fd, items, cut, ch, calls, t);
    PaidOnce(ch, calls, fd, t);
  }

  /** A completion as the daemon sends it is claimed by anyone with room for its payload. */
  lemma ClaimedBy(e: Entry, fd: int, capacity: nat)
    requires ItemOk(Event(e)) && e.payload != []
    ensures Bearing(e.completion) && e.completion.payloadLength == |e.payload|
    ensures Claims(ReadPayload(fd, e.completion, capacity), fd, e.completion.task) <==> capacity >= |e.payload|
  {
  }

  /** The payload of a completion that was handed over is read by a buffer that is large
      enough, its own length included; a smaller one gets EMSGSIZE and nothing changes. */
  lemma {:induction false} PayloadRead(s: Lib, fd: int, items: seq<Item>, cut: Item, ch: Channels, e: Entry, capacity: nat)
    requires Refines(s, fd, items, cut, ch) && ItemOk(Event(e)) && e.payload != []
    requires e.completion.task in ch.held && ch.held[e.completion.task] == e.payload
    ensures
      var done := Do(s, ReadPayload(fd, e.completion, capacity));
      if capacity >= |e.payload| then done.result == Paid(e.payload)
      else done.result == Failed(-EMSGSIZE) && done.lib == s
  {
    hide Refines, ItemOk, Bearing;
    ClaimedBy(e, fd, capacity);
    ArgumentsMean(e.completion, capacity);
    assert fd in s.wires by { RefinesKnown(s, fd, items, cut, ch); }
    PayloadRefines(s, fd, items, cut, ch, e.completion, capacity);
  }

  /** ... and it is handed over by the call that waited for the completion. */
  lemma {:induction false} PayloadAfterWait(s: Lib, fd: int, items: seq<Item>, cut: Item, ch: Channels, capacity: nat)
    requires Refines(s, fd, items, cut, ch) && fd in s.wires && Disciplined(s, items, cut, Wait(fd))
    requires ch.events != [] && ItemOk(Event(ch.events[0])) && ch.events[0].payload != []
    ensures
      var e, done := ch.events[0], Do(s, Wait(fd));
      && done.result == Completed(e.completion)
      && Do(done.lib, ReadPayload(fd, e.completion, capacity)).result ==
           if capacity >= |e.payload| then Paid(e.payload) else Failed(-EMSGSIZE)
  {
    hide Refines, ItemOk, Bearing, Disciplined, Do, Left;
    var e := ch.events[0];
    CallRefines(s, fd, items, cut, ch, Wait(fd));
    PayloadRead(Do(s, Wait(fd)).lib, fd, Left(s, items, Wait(fd)), cut, Ideal(ch, Wait(fd)).channels, e, capacity);
  }

  /** The code of a task kind on the wire. */
  function TaskCode(k: Kind): nat {
    match k
    case KNop => 1
    case KTimeout => 2
    case KCancel => 3
    case KSockRead => 4
    case KSockWrite => 5
    case KSockReadFixed => 6
    case KSockWriteFixed => 7
    case KFileRead => 8
    case KFileWrite => 9
    case KPoll => 10
    case KConnect => 11
    case KAccept => 12
    case KOpenat => 13
    case KClose => 14
  }

  /** The daemon's completions are the ones the library takes. */
  lemma DaemonCompletionsPass(id: nat, k: Kind, res: int, payload: seq<Byte>)
    requires -(U32 / 2) <= res < U32 / 2 && |payload| < U16
    ensures CompletionValid(id, k, res, |payload|) <==>
            ItemOk(Event(Entry(Completion(id, res, TaskCode(k), |payload|), payload)))
  {
  }

  // ---- which answers can be told from completions --------------------------------------------------------------------------

  /** The 64-bit number whose bytes are those of the header. */
  const HEADER_NUMBER: nat := 0x000c_0001_3144_4f49

  /** An answer that begins with a 64-bit number (a task id, or the oldest trace sequence) is
      taken for a completion exactly when that number is HEADER_NUMBER. */
  lemma {:induction false} Mistakable(x: nat, more: seq<Word>, rest: seq<Byte>)
    requires x < U64
    ensures HasHeader(Bytes([Low(x), High(x)] + more) + rest) <==> x == HEADER_NUMBER
  {
    HeaderOf([Low(x), High(x)] + more, rest);
    assert HEADER_NUMBER % U32 == MAGIC && HEADER_NUMBER / U32 == VERSION;
    assert x == U32 * (x / U32) + x % U32;
  }

  /** A resource result never is: its second word is a result, zero or negative. */
  lemma {:induction false} ResourceResultsDiffer(id: Word, res: int, more: seq<Word>, rest: seq<Byte>)
    requires -(U32 / 2) <= res <= 0
    ensures !HasHeader(Bytes([id, Signed(res)] + more) + rest)
  {
    HeaderOf([id, Signed(res)] + more, rest);
  }

  /** A STATS result never is: its first word is the number of active clients. */
  lemma {:induction false} StatsResultsDiffer(active: Word, more: seq<Word>, rest: seq<Byte>)
    requires active <= 64 && more != []
    ensures !HasHeader(Bytes([active] + more) + rest)
  {
    HeaderOf([active] + more, rest);
  }

  /** Draining never succeeds in front of a header. */
  lemma {:induction false} DrainStopsElsewhere(w: seq<Byte>)
    ensures var d := Drain(w); d.rc == 0 ==> |d.wire| >= 8 && !HasHeader(d.wire)
    decreases |w|
  {
    hide HasHeader, NextCompletion;
    if |w| >= 8 && HasHeader(w) && NextCompletion(w).Next? {
      DrainStopsElsewhere(NextCompletion(w).rest);
    }
  }

  /** Whatever is on the wire, no call returns an answer that begins with the header. */
  lemma {:induction false} NoHeaderReturned(s: Lib, fd: int, n: nat)
    requires fd in s.wires && n >= 8
    ensures var r := AnswerStep(s, fd, n).result; r.Answered? ==> |r.bytes| == n && !HasHeader(r.bytes)
  {
    hide Drain, HasHeader;
    var d := Drain(s.wires[fd]);
    DrainStopsElsewhere(s.wires[fd]);
    if d.rc == 0 && n <= |d.wire| { HeaderLocal(d.wire[..n], d.wire); }
  }

  /** Draining takes the completions, whatever comes after them. */
  lemma {:induction false} DrainEvents(events: seq<Item>, w: seq<Byte>)
    requires (forall i | i in events :: i.Event? && ItemOk(i)) && |w| >= 8 && !HasHeader(w)
    ensures Drain(PrintAll(events) + w).rc == 0 && Drain(PrintAll(events) + w).wire == w
  {
    hide HasHeader, NextCompletion, Print, ItemOk;
    if events == [] {
      assert PrintAll(events) + w == w;
    } else {
      var e, rest := events[0].entry, PrintAll(events[1..]) + w;
      assert events[0] == Event(e);
      assert PrintAll(events) + w == Print(events[0]) + rest;
      NextOfEvent(e, rest);
      DrainEvents(events[1..], w);
    }
  }

  /** The exact condition. An answer of eight bytes or more, after any completions and
      before anything at all, is returned if and only if it does not begin with the header. */
  lemma {:induction false} ReturnedIff(s: Lib, fd: int, events: seq<Item>, answer: seq<Byte>, rest: seq<Byte>)
    requires fd in s.wires && (forall i | i in events :: i.Event? && ItemOk(i)) && |answer| >= 8
    requires s.wires[fd] == PrintAll(events) + (answer + rest)
    ensures AnswerStep(s, fd, |answer|).result == Answered(answer) <==> !HasHeader(answer)
  {
    hide HasHeader, ItemOk, PrintAll, Drain;
    NoHeaderReturned(s, fd, |answer|);
    HeaderLocal(answer, answer + rest);
    if !HasHeader(answer) {
      DrainEvents(events, answer + rest);
      assert (answer + rest)[..|answer|] == answer;
    }
  }

  /** So a submit result with task id HEADER_NUMBER, or a trace result whose oldest sequence it
      is, is never returned, whatever precedes or follows it. */
  lemma {:induction false} LostAnswer(s: Lib, fd: int, more: seq<Word>, n: nat)
    requires fd in s.wires && n >= 8
    ensures
      var lost := Bytes([Low(HEADER_NUMBER), High(HEADER_NUMBER)] + more);
      var r := AnswerStep(s, fd, n).result;
      r.Answered? ==> |r.bytes| == n && r.bytes[..8] != lost[..8]
  {
    hide HasHeader, AnswerStep, Bytes;
    var lost := Bytes([Low(HEADER_NUMBER), High(HEADER_NUMBER)] + more);
    var r := AnswerStep(s, fd, n).result;
    NoHeaderReturned(s, fd, n);
    Mistakable(HEADER_NUMBER, more, []);
    assert lost + [] == lost;
    if r.Answered? && r.bytes[..8] == lost[..8] {
      HeaderLocal(lost, lost[..8]);
      HeaderLocal(r.bytes, lost[..8]);
    }
  }
}
