/** A whole connection: what the daemon queues on it, as bytes, is what the client library
    takes apart. */
module Session {
  import opened Protocol
  import opened Wire
  import opened DaemonState
  import opened DaemonInvariant
  import opened DaemonRuns
  import opened DaemonTheorems
  import D = Demux
  import A = Answers

  /** What the daemon's log leaves open about a record: the words of its other fields, the
      number a trace result begins with, the bytes of a payload. */
  datatype Detail = Detail(words: seq<Word>, number: nat, bytes: seq<Byte>)

  /** The record's fields fit their places, its details fit the record, and its number is not
      the one that looks like a header. */
  predicate Printable(r: Record, d: Detail) {
    match r
    case HandshakeResult(_) => true
    case SubmitResult(id, res) =>
      id < U64 && id != D.HEADER_NUMBER && -(U32 / 2) <= res < U32 / 2 && |d.words| == 1
    case Completion(task, _, res, n) => task < U64 && -(U32 / 2) <= res < U32 / 2 && n < U16
    case Payload(n) => |d.bytes| == n
    case ResourceResult(id, status) => id < U32 && -(U32 / 2) <= status <= 0 && |d.words| == 2
    case StatsResult => |d.words| == 14 && d.words[0] <= 64
    case TraceResult =>
      d.number < U64 && d.number != D.HEADER_NUMBER && |d.words| >= 4 &&
      (var count: int := d.words[2]; |d.words| == 4 + 12 * count)
  }

  ghost predicate AllPrintable(log: seq<Record>, details: seq<Detail>) {
    |details| == |log| && forall j | 0 <= j < |log| :: Printable(log[j], details[j])
  }

  /** What reaches the library: a completion together with the payload it announces, and
      answers. A handshake result would be one that begins with the header. */
  ghost function ItemsOf(log: seq<Record>, details: seq<Detail>): seq<D.Item>
    requires AllPrintable(log, details)
    decreases |log|
  {
    if log == [] then []
    else
      var d := details[0];
      var rest := ItemsOf(log[1..], details[1..]);
      match log[0]
      case HandshakeResult(_) => [D.Answer(Bytes([MAGIC, VERSION] + d.words))] + rest
      case Payload(_) => rest
      case Completion(task, kind, res, n) =>
        var payload := if n != 0 && |log| > 1 && log[1].Payload? then details[1].bytes else [];
        [D.Event(D.Entry(D.Completion(task, res, D.TaskCode(kind), n), payload))] + rest
      case SubmitResult(id, res) => [D.Answer(Bytes([Low(id), High(id), Signed(res)] + d.words))] + rest
      case ResourceResult(id, status) => [D.Answer(Bytes([id, Signed(status)] + d.words))] + rest
      case StatsResult => [D.Answer(Bytes(d.words))] + rest
      case TraceResult => [D.Answer(Bytes([Low(d.number), High(d.number)] + d.words))] + rest
  }

  /** The part of a legal history that its tails inherit. */
  ghost predicate Tidy(log: seq<Record>) {
    && (forall j | 0 <= j < |log| :: !log[j].HandshakeResult?)
    && (forall i, j, x: nat | 0 <= i < j < |log| && Completes(log[i], x) :: !Completes(log[j], x))
    && (forall j | 0 <= j < |log| && log[j].Completion? ::
          CompletionValid(log[j].task, log[j].kind, log[j].result, log[j].payload))
    && (forall j | 0 <= j < |log| && log[j].Completion? && log[j].payload != 0 ::
          j + 1 < |log| && log[j + 1] == Payload(log[j].payload))
  }

  lemma TidyTail(log: seq<Record>)
    requires Tidy(log) && log != []
    ensures Tidy(log[1..])
  {
    var tail := log[1..];
    forall i, j, x: nat | 0 <= i < j < |tail| && Completes(tail[i], x) ensures !Completes(tail[j], x) {
      assert Completes(log[i + 1], x);
    }
    forall j | 0 <= j < |tail| && tail[j].Completion? && tail[j].payload != 0
      ensures j + 1 < |tail| && tail[j + 1] == Payload(tail[j].payload)
    {
      assert log[j + 1] == tail[j];
    }
  }

  /** After an accepted handshake a legal history has no other. */
  lemma WellOrderedIsTidy(log: seq<Record>)
    requires WellOrdered(log) && log != [] && log[0] == HandshakeResult(true)
    requires log[|log| - 1].Completion? ==> log[|log| - 1].payload == 0
    ensures Tidy(log[1..])
  {
    var tail := log[1..];
    forall i, j, x: nat | 0 <= i < j < |tail| && Completes(tail[i], x) ensures !Completes(tail[j], x) {
      assert Completes(log[i + 1], x);
    }
    forall j | 0 <= j < |tail| && tail[j].Completion? && tail[j].payload != 0
      ensures j + 1 < |tail| && tail[j + 1] == Payload(tail[j].payload)
    {
      assert log[j + 1] == tail[j];
    }
    forall j | 0 <= j < |tail| ensures !tail[j].HandshakeResult? {
      assert log[j + 1] == tail[j];
    }
  }

  /** A printed record is an item that the library can tell apart. */
  lemma AnswerOk(r: Record, d: Detail)
    requires Printable(r, d)
    ensures r.SubmitResult? ==> D.ItemOk(D.Answer(Bytes([Low(r.id), High(r.id), Signed(r.res)] + d.words)))
    ensures r.ResourceResult? ==> D.ItemOk(D.Answer(Bytes([r.resource, Signed(r.status)] + d.words)))
    ensures r.StatsResult? ==> D.ItemOk(D.Answer(Bytes(d.words)))
    ensures r.TraceResult? ==> D.ItemOk(D.Answer(Bytes([Low(d.number), High(d.number)] + d.words)))
  {
    hide Bytes, D.HasHeader;
    match r
    case SubmitResult(id, res) =>
      var ws := [Low(id), High(id), Signed(res)] + d.words;
      assert ws == [Low(id), High(id)] + ([Signed(res)] + d.words);
      D.Mistakable(id, [Signed(res)] + d.words, []);
      assert Bytes(ws) + [] == Bytes(ws);
    case ResourceResult(id, status) =>
      D.ResourceResultsDiffer(id, status, d.words, []);
      assert Bytes([id, Signed(status)] + d.words) + [] == Bytes([id, Signed(status)] + d.words);
    case StatsResult =>
      assert d.words == [d.words[0]] + d.words[1..];
      D.StatsResultsDiffer(d.words[0], d.words[1..], []);
      assert Bytes(d.words) + [] == Bytes(d.words);
    case TraceResult =>
      D.Mistakable(d.number, d.words, []);
      assert Bytes([Low(d.number), High(d.number)] + d.words) + [] == Bytes([Low(d.number), High(d.number)] + d.words);
    case _ =>
  }

  /** Every item of a tidy history is one the library takes apart. */
  lemma {:induction false} ItemsOk(log: seq<Record>, details: seq<Detail>)
    requires AllPrintable(log, details) && Tidy(log)
    ensures forall i | i in ItemsOf(log, details) :: D.ItemOk(i)
    decreases |log|
  {
    hide D.ItemOk;
    if log != [] {
      TidyTail(log);
      ItemsOk(log[1..], details[1..]);
      AnswerOk(log[0], details[0]);
      if log[0].Completion? {
        var payload := if log[0].payload != 0 then details[1].bytes else [];
        D.DaemonCompletionsPass(log[0].task, log[0].kind, log[0].result, payload);
      }
    }
  }

  /** Only completions of the log become completions of the library. */
  lemma {:induction false} EventsFromLog(log: seq<Record>, details: seq<Detail>)
    requires AllPrintable(log, details)
    ensures forall e | e in D.Events(ItemsOf(log, details)) ::
      exists j | 0 <= j < |log| :: Completes(log[j], e.completion.task)
    decreases |log|
  {
    if log != [] {
      EventsFromLog(log[1..], details[1..]);
      var items, rest := ItemsOf(log, details), ItemsOf(log[1..], details[1..]);
      assert items == rest || items[1..] == rest;
      forall e | e in D.Events(items) ensures exists j | 0 <= j < |log| :: Completes(log[j], e.completion.task) {
        if e in D.Events(rest) {
          var j :| 0 <= j < |log[1..]| && Completes(log[1..][j], e.completion.task);
          assert Completes(log[j + 1], e.completion.task);
        } else {
          assert Completes(log[0], e.completion.task);
        }
      }
    }
  }

  /** Task ids on a connection are distinct. */
  lemma {:induction false} EventsFresh(log: seq<Record>, details: seq<Detail>)
    requires AllPrintable(log, details) && Tidy(log)
    ensures D.Fresh(D.Events(ItemsOf(log, details)), map[])
    decreases |log|
  {
    if log != [] {
      TidyTail(log);
      EventsFresh(log[1..], details[1..]);
      EventsFromLog(log[1..], details[1..]);
      var items, rest := ItemsOf(log, details), ItemsOf(log[1..], details[1..]);
      if log[0].Completion? {
        assert items[1..] == rest;
        var before, after := D.Events(rest), D.Events(items);
        assert after == [items[0].entry] + before;
        forall i | 0 <= i < |before| ensures before[i].completion.task != log[0].task {
          assert before[i] in before;
          var j :| 0 <= j < |log[1..]| && Completes(log[1..][j], before[i].completion.task);
          assert Completes(log[0], log[0].task) && log[1..][j] == log[j + 1];
        }
      } else {
        assert items == rest || (items[1..] == rest && items[0].Answer?);
      }
    }
  }

  /** End to end. In every reachable state, take what an open connection has been sent since
      its handshake was accepted, with any contents for what the log leaves open. However the
      bytes are cut off and however the application orders its calls on all connections, those
      on this one return what they would if completions, answers and payloads came separately. */
  lemma {:induction false} SessionDemultiplexes(g: Config, s: State, c: nat, details: seq<Detail>, cut: D.Item,
                                             wires: map<int, seq<Byte>>, fd: int, calls: seq<D.Call>)
    requires Reachable(g, s) && c < |s.clients| && c < |s.logs| && s.clients[c].open
    requires s.logs[c] != [] && s.logs[c][0] == HandshakeResult(true)
    requires AllPrintable(s.logs[c][1..], details) && fd in wires
    requires D.Arrives(wires[fd], ItemsOf(s.logs[c][1..], details), cut)
    requires forall call | call in calls :: call.fd in wires
    requires D.AllDisciplined(D.Lib([], [], wires), ItemsOf(s.logs[c][1..], details), cut, calls, fd)
    ensures
      var items := ItemsOf(s.logs[c][1..], details);
      var got := D.Results(D.Lib([], [], wires), calls, fd);
      var want := D.IdealResults(D.Channels(D.Events(items), D.Answers(items), map[]), calls, fd);
      && (forall i | i in items :: D.ItemOk(i))
      && |got| == |want| && forall i | 0 <= i < |got| :: D.Agree(got[i], want[i])
  {
    hide Reachable, D.AllDisciplined, D.Results, D.IdealResults, D.Arrives, D.Agree, D.Fresh;
    var log := s.logs[c][1..];
    ExactlyOnce(g, s, c);
    WellOrderedIsTidy(s.logs[c]);
    ItemsOk(log, details);
    EventsFresh(log, details);
    D.Demultiplexing(wires, fd, ItemsOf(log, details), cut, calls);
  }

  /** A connection that is being served was sent an accepted handshake, and everything else
      after it. */
  lemma ServedAfterHandshake(g: Config, s: State, c: nat)
    requires Reachable(g, s) && c < |s.clients| && c < |s.logs| && Serving(s.clients[c])
    ensures exists k | 0 <= k < |s.logs[c]| ::
      && s.logs[c][k] == HandshakeResult(true)
      && (forall j | 0 <= j < k :: s.logs[c][j] == HandshakeResult(false))
      && (forall j | k < j < |s.logs[c]| :: !s.logs[c][j].HandshakeResult?)
  {
    ReachableInv(g, s);
    assert SessionOk(s, c);
    hide Inv, Reachable;
    ReplaySound(s.logs[c]);
    var k := AcceptedAt(s.logs[c]);
  }

  lemma {:induction false} AcceptedAt(log: seq<Record>) returns (k: nat)
    requires Replay(log).Some? && Replay(log).value.submit
    ensures k < |log| && log[k] == HandshakeResult(true)
  {
    var n := |log| - 1;
    if log[n] == HandshakeResult(true) {
      k := n;
    } else {
      k := AcceptedAt(log[..n]);
    }
  }

  /** A submit result either refuses or gives an id. */
  predicate Plain(r: Record) {
    r.SubmitResult? ==> if r.id == 0 then r.res < 0 else r.res == 0
  }

  lemma {:induction false} SubmitsPlain(log: seq<Record>)
    requires Replay(log).Some?
    ensures forall j | 0 <= j < |log| :: Plain(log[j])
  {
    if log != [] {
      var n := |log| - 1;
      SubmitsPlain(log[..n]);
      assert forall j | 0 <= j < n :: log[j] == log[..n][j];
    }
  }

  /** Every submit result that an open connection has been sent is understood by the library
      as the daemon meant it: the id of the task accepted, or the errno of the refusal. */
  lemma {:induction false} SubmitsUnderstood(g: Config, s: State, c: nat, j: nat, credits: Word)
    requires Reachable(g, s) && c < |s.clients| && c < |s.logs| && s.clients[c].open && j < |s.logs[c]|
    requires s.logs[c][j].SubmitResult? && Printable(s.logs[c][j], Detail([credits], 0, []))
    ensures
      var r := s.logs[c][j];
      A.SubmitVerdict(Bytes([Low(r.id), High(r.id), Signed(r.res), credits])) ==
        if r.id == 0 then A.Refused(-r.res) else A.Accepted(r.id)
  {
    var log, r := s.logs[c], s.logs[c][j];
    ReachableInv(g, s);
    assert SessionOk(s, c);
    hide Inv, Reachable, Observe;
    SubmitsPlain(log);
    assert Plain(r);
    ReplaySound(log);
    assert r.id != 0 ==> Acknowledges(log[j], r.id);
    A.SubmitUnderstood(r.id, r.res, credits);
  }
}
