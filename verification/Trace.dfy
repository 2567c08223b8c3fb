/** The trace ring: 256 slots that stand for an unbounded log. */
module Trace {

  const CAPACITY: nat := 256

  /** A trace record, apart from its sequence number. */
  datatype Fields = Fields(
    timestamp: nat, task: nat, resource: nat, res: int, credits: nat,
    kind: nat, taskKind: nat, client: nat, priority: nat)

  datatype Event = Event(sequence: nat, fields: Fields)

  /** What GET_TRACE answers: the header, then the events. */
  datatype Answer = Answer(oldest: nat, latest: nat, count: nat, events: seq<Event>)

  // ---- the log ------------------------------------------------------------------------

  /** The first sequence number still kept after `n` events; 0 if there is none. */
  function Oldest(n: nat): nat {
    if n == 0 then 0 else if n <= CAPACITY then 1 else n - CAPACITY + 1
  }

  /** Event `sequence` of the log: sequence numbers start at 1. */
  function Logged(log: seq<Fields>, sequence: nat): Event
    requires 1 <= sequence <= |log|
  {
    Event(sequence, log[sequence - 1])
  }

  /** Events `first` to `last` of the log, in order. */
  function Stretch(log: seq<Fields>, first: nat, last: nat): (r: seq<Event>)
    requires 1 <= first <= last + 1 && last <= |log|
    ensures |r| == last + 1 - first
    ensures forall k | 0 <= k < |r| :: r[k] == Logged(log, first + k)
    decreases last + 1 - first
  {
    if first == last + 1 then [] else [Logged(log, first)] + Stretch(log, first + 1, last)
  }

  function Max(a: nat, b: nat): nat { if a < b then b else a }
  function Min(a: nat, b: nat): nat { if a < b then a else b }

  /** GET_TRACE on the log itself: the first `max` retained events after the cursor. */
  function Expected(log: seq<Fields>, after: nat, max: nat): Answer {
    var n := |log|;
    var first := Max(after + 1, Oldest(n));
    if n == 0 || after >= n || max == 0 then Answer(Oldest(n), n, 0, [])
    else
      var last := Min(n, first + max - 1);
      Answer(Oldest(n), n, last + 1 - first, Stretch(log, first, last))
  }

  /** What an answer says about the log: `latest` is the number of events ever emitted, `oldest`
      the first of the last 256, 0 if there are none; the events are those after the cursor
      that are still kept, from the first on, one after the other, as many as were asked for
      and are there. */
  lemma AnswerFacts(log: seq<Fields>, after: nat, max: nat)
    ensures
      var a := Expected(log, after, max);
      var lost: nat := if |log| > 256 then |log| - 256 else 0;
      var seen := if after > lost then after else lost;
      && a.latest == |log|
      && a.oldest == (if log == [] then 0 else lost + 1)
      && a.count == |a.events| == (if |log| <= seen then 0 else if |log| - seen < max then |log| - seen else max)
      && forall k | 0 <= k < |a.events| ::
           a.events[k].sequence == seen + k + 1 && seen + k < |log| && a.events[k].fields == log[seen + k]
  {
  }

  // ---- the ring -------------------------------------------------------------------------

  class TraceRing {
    const slots: array<Event>
    var next: nat
    var count: nat
    ghost var log: seq<Fields>

    ghost predicate Valid()
      reads this, slots
    {
      && slots.Length == CAPACITY
      && next == |log| + 1
      && count == Min(|log|, CAPACITY)
      && (forall q | Max(Oldest(|log|), 1) <= q <= |log| :: slots[(q - 1) % CAPACITY] == Logged(log, q))
    }

    constructor ()
      ensures Valid() && fresh(slots) && log == []
    {
      slots := new Event[CAPACITY];
      next, count := 1, 0;
      log := [];
    }

    /** iouringd_emit_trace_event */
    method Emit(fields: Fields)
      requires Valid()
      modifies this`next, this`count, this`log, slots
      ensures Valid() && log == old(log) + [fields]
    {
      var sequence := next;
      next := next + 1;
      slots[(sequence - 1) % CAPACITY] := Event(sequence, fields);
      if count < CAPACITY {
        count := count + 1;
      }
      ghost var before := log;
      log := log + [fields];
      forall q | Max(Oldest(|log|), 1) <= q <= |log| ensures slots[(q - 1) % CAPACITY] == Logged(log, q) {
        if q < sequence {
          assert old(slots[(q - 1) % CAPACITY]) == Logged(before, q);
        }
      }
    }

    /** iouringd_trace_oldest_sequence */
    function OldestSequence(): (r: nat)
      requires Valid()
      reads this, slots
      ensures r == Oldest(|log|)
    {
      if count == 0 then 0 else next - count
    }

    /** Where the answer starts. */
    method FirstSequence(after: nat, oldest: nat) returns (sequence: nat)
      ensures sequence == Max(after + 1, oldest)
    {
      sequence := after + 1;
      if sequence < oldest {
        sequence := oldest;
      }
    }

    /** The first loop of iouringd_queue_trace_result: how many events there are to send. */
    method CountEvents(after: nat, max: nat, oldest: nat, latest: nat) returns (emitted: nat)
      requires oldest <= latest
      ensures emitted == if max == 0 || after >= latest then 0
                         else Min(latest + 1 - Max(after + 1, oldest), max)
    {
      emitted := 0;
      if max != 0 && after < latest {
        var sequence := FirstSequence(after, oldest);
        ghost var first := sequence;
        while sequence <= latest && emitted < max
          invariant first + emitted == sequence <= latest + 1 && emitted <= max
        {
          emitted := emitted + 1;
          sequence := sequence + 1;
        }
      }
    }

    /** Its second loop: the events themselves. */
    method CopyEvents(first: nat, latest: nat, count: nat) returns (events: seq<Event>)
      requires Valid() && latest == |log| && 1 <= first && Oldest(|log|) <= first && first + count <= latest + 1
      ensures events == Stretch(log, first, first + count - 1)
    {
      var sequence, remaining := first, count;
      events := [];
      while sequence <= latest && remaining != 0
        invariant first <= sequence && sequence - first + remaining == count
        invariant events == Stretch(log, first, sequence - 1)
      {
        assert slots[(sequence - 1) % CAPACITY] == Logged(log, sequence);
        assert events + [Logged(log, sequence)] == Stretch(log, first, sequence);
        events := events + [slots[(sequence - 1) % CAPACITY]];
        remaining := remaining - 1;
        sequence := sequence + 1;
      }
    }

    /** iouringd_queue_trace_result: counts what it will send, then sends that many. */
    method Query(after: nat, max: nat) returns (a: Answer)
      requires Valid()
      ensures a == Expected(log, after, max)
    {
      var oldest, latest := OldestSequence(), next - 1;
      var emitted := CountEvents(after, max, oldest, latest);
      if emitted == 0 {
        return Answer(oldest, latest, 0, []);
      }
      var first := FirstSequence(after, oldest);
      var events := CopyEvents(first, latest, emitted);
      a := Answer(oldest, latest, emitted, events);
    }
  }

  // ---- paging -----------------------------------------------------------------------------

  /** One poll: the log as it then was, and how many events were asked for. */
  datatype Poll = Poll(log: seq<Fields>, max: nat)

  /** A client that always asks after the last event it has seen. */
  function Cursor(p: Poll, cursor: nat): nat {
    var a := Expected(p.log, cursor, p.max);
    if a.events == [] then cursor else a.events[|a.events| - 1].sequence
  }

  function Collect(polls: seq<Poll>, cursor: nat): seq<Event> {
    if polls == [] then []
    else Expected(polls[0].log, cursor, polls[0].max).events + Collect(polls[1..], Cursor(polls[0], cursor))
  }

  function CursorAfter(polls: seq<Poll>, cursor: nat): nat {
    if polls == [] then cursor else CursorAfter(polls[1..], Cursor(polls[0], cursor))
  }

  /** The log only grows from poll to poll. */
  ghost predicate Growing(polls: seq<Poll>) {
    forall i, j | 0 <= i < j < |polls| :: polls[i].log <= polls[j].log
  }

  /** No answer showed a gap: its oldest sequence was never past the next one expected. */
  predicate NoGapShown(polls: seq<Poll>, cursor: nat) {
    polls == [] ||
    (Expected(polls[0].log, cursor, polls[0].max).oldest <= cursor + 1
     && NoGapShown(polls[1..], Cursor(polls[0], cursor)))
  }

  /** A poll without a gap continues right after the cursor. */
  lemma PollContinues(p: Poll, cursor: nat)
    requires cursor <= |p.log| && Expected(p.log, cursor, p.max).oldest <= cursor + 1
    ensures cursor <= Cursor(p, cursor) <= |p.log|
    ensures Expected(p.log, cursor, p.max).events == Stretch(p.log, cursor + 1, Cursor(p, cursor))
  {
  }

  lemma {:induction false} StretchJoin(log: seq<Fields>, more: seq<Fields>, a: nat, b: nat, c: nat)
    requires 1 <= a <= b + 1 <= c + 1 && b <= |log| && c <= |more| && log <= more
    ensures Stretch(log, a, b) + Stretch(more, b + 1, c) == Stretch(more, a, c)
  {
    assert forall k | 1 <= k <= b :: Logged(log, k) == Logged(more, k);
  }

  /** Paging by the last sequence seen yields every event once, in order, unless some answer
      revealed that events were lost. */
  lemma {:induction false} PagingIsComplete(polls: seq<Poll>, cursor: nat)
    requires polls != [] && Growing(polls) && cursor <= |polls[0].log| && NoGapShown(polls, cursor)
    ensures
      var log := polls[|polls| - 1].log;
      && cursor <= CursorAfter(polls, cursor) <= |log|
      && Collect(polls, cursor) == Stretch(log, cursor + 1, CursorAfter(polls, cursor))
    decreases |polls|
  {
    hide Cursor, Stretch, Expected;
    var p, rest := polls[0], polls[1..];
    PollContinues(p, cursor);
    var next := Cursor(p, cursor);
    if rest == [] {
      assert Collect(polls, cursor) == Expected(p.log, cursor, p.max).events + [];
    } else {
      assert polls[0].log <= polls[1].log;
      PagingIsComplete(rest, next);
      StretchJoin(p.log, polls[|polls| - 1].log, cursor + 1, next, CursorAfter(polls, cursor));
    }
  }
}
