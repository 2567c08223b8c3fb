/** A client's output buffer: records go in whole, bytes leave as the socket takes them. */
module OutputBuffer {
  import opened Protocol

  /** What write(2) may answer. */
  datatype Write = Wrote(n: nat) | WouldBlock | Interrupted | Failed

  /** How many of `n` pending bytes the socket's answers take, and whether they end in an
      error. When they run out the socket is taken to block. */
  datatype Taken = Taken(count: nat, ok: bool)

  function Take(n: nat, answers: seq<Write>): (t: Taken)
    ensures t.count <= n
    decreases |answers|
  {
    if n == 0 || answers == [] then Taken(0, true)
    else
      match answers[0]
      case Wrote(k) =>
        var taken := if k <= n then k else n;
        if taken == 0 then Taken(0, false)
        else var rest := Take(n - taken, answers[1..]); rest.(count := taken + rest.count)
      case WouldBlock => Taken(0, true)
      case Interrupted => Take(n, answers[1..])
      case Failed => Taken(0, false)
  }

  class OutputBuffer {
    const output: array<Byte>
    var length: nat
    var sent: nat
    ghost var accepted: seq<Byte>  // all records queued successfully, in order
    ghost var written: seq<Byte>   // all bytes the socket has taken

    /** The bytes written and the bytes pending are the bytes accepted. */
    ghost predicate Valid()
      reads this, output
    {
      && sent <= length <= output.Length
      && written + output[sent..length] == accepted
    }

    constructor (capacity: nat)
      ensures Valid() && fresh(output) && output.Length == capacity && accepted == [] && written == []
    {
      output := new Byte[capacity];
      length, sent := 0, 0;
      accepted, written := [], [];
    }

    /** Move the pending bytes to the front. */
    method Compact()
      requires Valid()
      modifies this`length, this`sent, output
      ensures Valid() && sent == 0 && length == old(length - sent)
    {
      ghost var pending := output[sent..length];
      var n, start := length - sent, sent;
      for i := 0 to n
        invariant forall j | 0 <= j < i :: output[j] == pending[j]
        invariant forall j | i <= j < n :: output[start + j] == pending[j]
        modifies output
      {
        output[i] := output[start + i];
      }
      assert output[..n] == pending;
      length := n;
      sent := 0;
    }

    /** iouringd_queue_client_output: all of `record` or, for want of room, nothing. */
    method Queue(record: seq<Byte>) returns (rc: int)
      requires Valid()
      modifies this`length, this`sent, this`accepted, output
      ensures Valid()
      ensures rc == if old(length - sent) + |record| <= output.Length then 0 else -EOVERFLOW
      ensures accepted == if rc == 0 then old(accepted) + record else old(accepted)
    {
      if sent == length {
        sent := 0;
        length := 0;
      } else if sent != 0 {
        Compact();
      }
      if |record| > output.Length - length {
        return -EOVERFLOW;
      }
      Append(record);
      rc := 0;
    }

    /** Copy `record` behind the pending bytes. */
    method Append(record: seq<Byte>)
      requires Valid() && sent == 0 && length + |record| <= output.Length
      modifies this`length, this`accepted, output
      ensures Valid() && accepted == old(accepted) + record
    {
      ghost var pending := output[..length];
      var end := length;
      assert pending + record[..0] == pending;
      for i := 0 to |record|
        invariant output[..end + i] == pending + record[..i]
        modifies output
      {
        output[end + i] := record[i];
        assert output[..end + i + 1] == output[..end + i] + [record[i]];
        assert pending + record[..i] + [record[i]] == pending + record[..i + 1];
      }
      length := end + |record|;
      accepted := accepted + record;
      assert record[..|record|] == record;
      assert output[0..length] == pending + record;
    }

    /** One answer of write(2); `stop` says that the call returns `rc`. */
    method WriteOnce(answer: Write) returns (stop: bool, rc: int, ghost taken: nat)
      requires Valid() && sent < length
      modifies this`sent, this`written
      ensures Valid() && sent == old(sent) + taken <= length && |written| == |old(written)| + taken
      ensures rc == (if answer.Failed? || (answer.Wrote? && answer.n == 0) then -1 else 0)
      ensures stop == (rc != 0 || answer.WouldBlock?)
      ensures taken == if !answer.Wrote? then 0 else if answer.n <= old(length - sent) then answer.n else old(length - sent)
    {
      stop, rc, taken := false, 0, 0;
      match answer
      case Wrote(n) =>
        var count := if n <= length - sent then n else length - sent;
        if count == 0 {
          return true, -1, 0;
        }
        taken := count;
        assert output[sent..length] == output[sent..sent + count] + output[sent + count..length];
        written := written + output[sent..sent + count];
        sent := sent + count;
      case WouldBlock =>
        stop := true;
      case Interrupted =>
      case Failed =>
        return true, -1, 0;
    }

    /** The writing loop of iouringd_flush_client_output. */
    method WritePending(answers: seq<Write>) returns (rc: int)
      requires Valid()
      modifies this`sent, this`written
      ensures Valid()
      ensures
        var t := Take(old(length - sent), answers);
        rc == (if t.ok then 0 else -1) && sent == old(sent) + t.count && |written| == |old(written)| + t.count
    {
      hide Take;
      var next := 0;
      ghost var goal := Take(length - sent, answers);
      ghost var done: nat := 0;
      assert answers[0..] == answers;
      while sent < length
        invariant next <= |answers| && Valid() && sent == old(sent) + done && |written| == |old(written)| + done
        invariant done <= goal.count && Take(length - sent, answers[next..]) == Taken(goal.count - done, goal.ok)
        decreases |answers| - next
      {
        TakeOnce(length - sent, answers[next..]);
        if next == |answers| {
          return 0;
        }
        assert answers[next..][1..] == answers[next + 1..];
        var stop;
        ghost var taken;
        stop, rc, taken := WriteOnce(answers[next]);
        done := done + taken;
        if stop {
          return;
        }
        next := next + 1;
      }
      TakeOnce(0, answers[next..]);
      rc := 0;
    }

    /** iouringd_flush_client_output against the socket's answers. */
    method Flush(answers: seq<Write>) returns (rc: int)
      requires Valid()
      modifies this`length, this`sent, this`written
      ensures Valid() && accepted == old(accepted)
      ensures
        var t := Take(old(length - sent), answers);
        && rc == (if t.ok then 0 else -1)
        && written == old(written) + old(output[sent..length])[..t.count]
      ensures rc == 0 && length == 0 ==> written == accepted
    {
      ghost var before, pending := written, output[sent..length];
      rc := WritePending(answers);
      SamePrefix(before, pending, written, output[sent..length]);
      if rc == 0 && sent == length {
        length, sent := 0, 0;
      }
    }
  }

  /** Two ways to cut the same bytes. */
  lemma SamePrefix(a: seq<Byte>, b: seq<Byte>, a': seq<Byte>, b': seq<Byte>)
    requires a + b == a' + b' && |a| <= |a'|
    ensures |a'| - |a| <= |b| && a' == a + b[..|a'| - |a|]
  {
    var n := |a'| - |a|;
    assert a' == (a' + b')[..|a'|] == (a + b)[..|a| + n];
  }

  lemma TakeOnce(n: nat, answers: seq<Write>)
    ensures
      var t := Take(n, answers);
      if n == 0 || answers == [] then t == Taken(0, true)
      else match answers[0]
           case Wrote(k) =>
             var taken := if k <= n then k else n;
             if taken == 0 then t == Taken(0, false)
             else t == Take(n - taken, answers[1..]).(count := taken + Take(n - taken, answers[1..]).count)
           case WouldBlock => t == Taken(0, true)
           case Interrupted => t == Take(n, answers[1..])
           case Failed => t == Taken(0, false)
  {
  }
}
