/** What a request on the wire means: a decoder for a whole byte string, and the proof that
    it inverts the printer and accepts nothing else. */
module Decoder {
  import opened Protocol
  import opened Wire

  /** More bytes are needed; or the bytes break the protocol; or they begin with a request
      that takes `length` of them. */
  datatype Decoded = Short | Bad | Got(priority: nat, request: Request, length: nat)

  predicate HeaderOk(ws: seq<Word>)
    requires |ws| >= 4
  {
    ws[0] == MAGIC && ws[1] == VERSION && ws[3] == 0
  }

  /** The size of the fixed part, in words. */
  function FixedWords(code: nat): (n: nat)
    ensures 4 <= n <= 8
  {
    if code in {2, 3, 4, 5, 8, 9, 10, 11, 12, 14, 257, 258} then 6
    else if code in {6, 7, 13} then 7
    else if code == 260 then 8
    else 4
  }

  /** The data that follow the fixed part; None if a field is out of bounds. */
  function DataLength(io: nat, code: nat, ws: seq<Word>): (r: Option<nat>)
    requires |ws| == FixedWords(code)
    ensures r.Some? && 4 * |ws| <= MAX_REQUEST ==> 4 * |ws| + r.value <= MAX_REQUEST
  {
    if code == 11 then Sized(ws[5], 1, io, 24, ws[5] < U16)
    else if code == 12 then (if ws[5] > io || ws[5] >= U16 then None else Some(0))
    else if code == 13 then Sized(ws[6], 2, io, 28, true)
    else if code == 5 || code == 9 then Sized(ws[5], 1, io, 24, true)
    else if code == 258 then Sized(ws[4], 0, io, 24, ws[5] == 0)
    else if code == 10 then (if ws[5] / U16 != 0 then None else Some(0))
    else if code == 14 then (if ws[5] != 0 then None else Some(0))
    else if code == 260 then (if ws[6] > 256 || ws[7] != 0 then None else Some(0))
    else Some(0)
  }

  function Sized(n: nat, least: nat, most: nat, fixed: nat, ok: bool): Option<nat> {
    if n < least || n > most || !ok || fixed + n > MAX_REQUEST then None else Some(n)
  }

  /** iouringd_request_priority_is_valid; unknown kinds have no valid priority. */
  predicate PriorityOk(code: nat, priority: nat) {
    if 1 <= code < 15 then priority <= 2
    else 256 <= code <= 260 && priority == 0
  }

  function Build(code: nat, ws: seq<Word>, data: seq<Byte>): Request
    requires |ws| == FixedWords(code)
  {
    if code == 2 then Timeout(ws[4] + U32 * ws[5])
    else if code == 3 then Cancel(ws[4] + U32 * ws[5])
    else if code == 4 then SockRead(ws[4], ws[5])
    else if code == 5 then SockWrite(ws[4], data)
    else if code == 6 then SockReadFixed(ws[4], ws[5], ws[6])
    else if code == 7 then SockWriteFixed(ws[4], ws[5], ws[6])
    else if code == 8 then FileRead(ws[4], ws[5])
    else if code == 9 then FileWrite(ws[4], data)
    else if code == 10 then Poll(ws[4], ws[5] % U16)
    else if code == 11 then Connect(ws[4], data)
    else if code == 12 then Accept(ws[4], ws[5])
    else if code == 13 then Openat(FromSigned(ws[4]), ws[5], data)
    else if code == 14 then Close(ws[4])
    else if code == 256 then RegisterFd
    else if code == 257 then ReleaseResource(ws[4])
    else if code == 258 then RegisterBuffer(data)
    else if code == 259 then GetStats
    else if code == 260 then GetTrace(ws[4] + U32 * ws[5], ws[6])
    else Nop
  }

  /** iouringd_finish_submit_request */
  function Finish(code: nat, priority: nat, ws: seq<Word>, data: seq<Byte>): Decoded
    requires |ws| == FixedWords(code)
  {
    if !PriorityOk(code, priority) then Bad
    else if code == 13 && (|data| < 2 || data[|data| - 1] != 0) then Bad
    else Got(priority, Build(code, ws, data), 4 * |ws| + |data|)
  }

  /** The first request of a byte string, all at once. */
  function Decode(io: nat, b: seq<Byte>): (d: Decoded)
    ensures d.Got? ==> 16 <= d.length <= |b|
  {
    if |b| < 16 then Short
    else
      var head := Words(b[..16]);
      if !HeaderOk(head) then Bad
      else
        var code, priority := head[2] % U16, head[2] / U16;
        var n := 4 * FixedWords(code);
        if |b| < n then Short
        else
          var ws := Words(b[..n]);
          match DataLength(io, code, ws)
          case None => Bad
          case Some(d) => if |b| < n + d then Short else Finish(code, priority, ws, b[n..n + d])
  }

  // ---- exactly the printed messages --------------------------------------------------------

  /** What the daemon takes: fields in range, and sizes within its limits. */
  predicate Acceptable(io: nat, priority: nat, r: Request) {
    && Fits(r) && PriorityOk(Code(r), priority)
    && match r
       case SockWrite(_, d) => 0 < |d| <= io && 24 + |d| <= MAX_REQUEST
       case FileWrite(_, d) => 0 < |d| <= io && 24 + |d| <= MAX_REQUEST
       case Connect(_, d) => 0 < |d| <= io && |d| < U16 && 24 + |d| <= MAX_REQUEST
       case Accept(_, n) => n <= io && n < U16
       case Openat(_, _, d) => 2 <= |d| <= io && 28 + |d| <= MAX_REQUEST && d[|d| - 1] == 0
       case RegisterBuffer(d) => |d| <= io && 24 + |d| <= MAX_REQUEST
       case GetTrace(_, m) => m <= 256
       case _ => true
  }

  /** The words and data that stand for a request. RELEASE_RESOURCE has a reserved last word
      that the daemon does not look at. */
  predicate Spelled(ws: seq<Word>, data: seq<Byte>, priority: nat, r: Request)
    requires Fits(r) && priority < U16
  {
    data == Data(r) &&
    if r.ReleaseResource? then |ws| == 6 && ws[..5] == FixedPart(priority, r)[..5]
    else ws == FixedPart(priority, r)
  }

  /** The request built from words fits back into words. */
  lemma BuildFits(code: nat, ws: seq<Word>, data: seq<Byte>)
    requires |ws| == FixedWords(code) && |data| < U32 && (1 <= code < 15 || 256 <= code <= 260)
    ensures var r := Build(code, ws, data); Fits(r) && Code(r) == code
  {
  }

  /** ... and they are the same words, where the daemon checks them. */
  lemma BuildFields(io: nat, code: nat, ws: seq<Word>, data: seq<Byte>)
    requires |ws| == FixedWords(code) && |data| < U32 && (1 <= code < 15 || 256 <= code <= 260)
    requires DataLength(io, code, ws) == Some(|data|)
    ensures
      var r := Build(code, ws, data);
      && Fits(r) && Data(r) == data && |Fields(r)| == |ws| - 4
      && (if r.ReleaseResource? then Fields(r)[0] == ws[4] else Fields(r) == ws[4..])
  {
    BuildFits(code, ws, data);
    var f := Fields(Build(code, ws, data));
    assert |f| == |ws| - 4;
    assert |f| > 0 ==> f[0] == ws[4];
    assert |f| > 2 ==> f[2] == ws[6];
    assert |f| > 3 ==> f[3] == ws[7];
    assert |f| > 1 && code != 257 ==> f[1] == ws[5];
  }

  /** A request that was decoded is acceptable and spelled by the words it came from. */
  lemma FinishSound(io: nat, code: nat, priority: nat, ws: seq<Word>, data: seq<Byte>)
    requires code < U16 && priority < U16 && |ws| == FixedWords(code)
    requires HeaderOk(ws) && ws[2] == Pair(code, priority)
    requires DataLength(io, code, ws) == Some(|data|)
    ensures
      var d := Finish(code, priority, ws, data);
      d.Got? ==> Acceptable(io, priority, d.request) && Spelled(ws, data, priority, d.request)
  {
    if Finish(code, priority, ws, data).Got? {
      var r := Build(code, ws, data);
      BuildFits(code, ws, data);
      BuildFields(io, code, ws, data);
      assert Acceptable(io, priority, r);
      hide Build, Fields, Acceptable, DataLength;
      assert ws[..4] == [MAGIC, VERSION, Pair(code, priority), 0];
      var p := FixedPart(priority, r);
      assert p[..4] == ws[..4] && p[4..] == Fields(r);
      if r.ReleaseResource? {
        assert forall k | 0 <= k < 4 :: p[k] == p[..4][k] == ws[..4][k];
        assert p[4] == Fields(r)[0];
      } else {
        assert ws == ws[..4] + ws[4..] && p == p[..4] + p[4..];
      }
    }
  }

  /** A request that is acceptable is decoded from any words that spell it. */
  lemma FinishComplete(io: nat, priority: nat, ws: seq<Word>, data: seq<Byte>, r: Request)
    requires priority < U16 && Acceptable(io, priority, r) && Spelled(ws, data, priority, r)
    ensures |ws| == FixedWords(Code(r)) && HeaderOk(ws) && ws[2] == Pair(Code(r), priority)
    ensures DataLength(io, Code(r), ws) == Some(|data|)
    ensures Finish(Code(r), priority, ws, data) == Got(priority, r, 4 * |ws| + |data|)
  {
    var p := FixedPart(priority, r);
    assert p[..4] == [MAGIC, VERSION, Pair(Code(r), priority), 0] && p[4..] == Fields(r);
    if r.ReleaseResource? {
      assert ws[4] == p[4];
      assert forall k | 0 <= k < 5 :: ws[k] == ws[..5][k] == p[k];
    } else {
      assert forall k | 4 <= k < |ws| :: ws[k] == Fields(r)[k - 4];
    }
  }

  /** The byte string `b` is request `r`: what the printer gives, except that the reserved
      last word of RELEASE_RESOURCE may be anything. */
  predicate Spells(b: seq<Byte>, priority: nat, r: Request)
    requires Fits(r) && priority < U16
  {
    var k := 4 * |FixedPart(priority, r)|;
    |b| == k + |Data(r)| && Spelled(Words(b[..k]), b[k..], priority, r)
  }

  lemma PrintedSpells(priority: nat, r: Request)
    requires Fits(r) && priority < U16
    ensures Spells(Encode(priority, r), priority, r)
  {
    hide FixedPart;
    var ws := FixedPart(priority, r);
    var b := Encode(priority, r);
    assert b[..4 * |ws|] == Bytes(ws) && b[4 * |ws|..] == Data(r);
    WordsOfBytes(ws);
    if r.ReleaseResource? { ReleaseSize(priority, r); }
  }

  lemma ReleaseSize(priority: nat, r: Request)
    requires Fits(r) && priority < U16 && r.ReleaseResource?
    ensures |FixedPart(priority, r)| == 6
  {
  }

  /** Apart from that reserved word a spelled request is the printed one. */
  lemma SpelledIsPrinted(b: seq<Byte>, priority: nat, r: Request)
    requires Fits(r) && priority < U16 && Spells(b, priority, r)
    ensures !r.ReleaseResource? ==> b == Encode(priority, r)
    ensures r.ReleaseResource? ==> |b| == 24 && b[..20] == Encode(priority, r)[..20]
  {
    var ws := FixedPart(priority, r);
    var k := 4 * |ws|;
    BytesOfWords(b[..k]);
    if r.ReleaseResource? {
      ReleaseSize(priority, r);
      WordsPrefix(b[..24], 5);
      WordsPrefix(Bytes(ws), 5);
      WordsOfBytes(ws);
      BytesOfWords(b[..20]);
      BytesOfWords(Bytes(ws)[..20]);
      assert b[..24][..20] == b[..20];
      assert Encode(priority, r) == Bytes(ws) + [];
    } else {
      assert b == b[..k] + b[k..];
    }
  }

  lemma HeadWords(b: seq<Byte>, n: nat)
    requires 16 <= 4 * n <= |b|
    ensures Words(b[..16]) == Words(b[..4 * n])[..4]
  {
    WordsPrefix(b[..4 * n], 4);
    assert b[..4 * n][..16] == b[..16];
  }

  lemma PairParts(w: Word)
    ensures w == Pair(w % U16, w / U16)
  {
  }

  /** Whatever is decoded is an acceptable request, spelled by exactly the bytes consumed. */
  lemma DecodeSound(io: nat, b: seq<Byte>)
    ensures
      var d := Decode(io, b);
      d.Got? ==>
        && d.priority < U16 && d.length <= |b| && d.length <= MAX_REQUEST
        && Acceptable(io, d.priority, d.request)
        && Spells(b[..d.length], d.priority, d.request)
  {
    var d := Decode(io, b);
    if d.Got? {
      var head := Words(b[..16]);
      var code, priority := head[2] % U16, head[2] / U16;
      var n := 4 * FixedWords(code);
      var ws := Words(b[..n]);
      HeadWords(b, FixedWords(code));
      assert forall k | 0 <= k < 4 :: ws[k] == ws[..4][k];
      PairParts(head[2]);
      var data := b[n..d.length];
      FinishSound(io, code, priority, ws, data);
      hide Build, Fields, Acceptable, DataLength;
      SpelledSize(ws, data, priority, d.request);
      assert b[..d.length][..n] == b[..n] && b[..d.length][n..] == data;
    }
  }

  lemma SpelledSize(ws: seq<Word>, data: seq<Byte>, priority: nat, r: Request)
    requires Fits(r) && priority < U16 && Spelled(ws, data, priority, r)
    ensures |ws| == |FixedPart(priority, r)|
  {
  }

  /** Every acceptable request is decoded, from any bytes that spell it and whatever follows. */
  lemma DecodeComplete(io: nat, b: seq<Byte>, priority: nat, r: Request, n: nat)
    requires priority < U16 && n <= |b| && Acceptable(io, priority, r) && Spells(b[..n], priority, r)
    ensures Decode(io, b) == Got(priority, r, n)
  {
    hide Build, Fields, Acceptable, DataLength, Finish;
    assert Fits(r) by { AcceptableFits(io, priority, r); }
    var k := 4 * |FixedPart(priority, r)|;
    var m := b[..n];
    var ws, data := Words(m[..k]), m[k..];
    FinishComplete(io, priority, ws, data, r);
    assert m[..k] == b[..k];
    HeadWords(b, |ws|);
    assert forall j | 0 <= j < 4 :: ws[j] == ws[..4][j];
    assert b[k..n] == data;
  }

  lemma AcceptableFits(io: nat, priority: nat, r: Request)
    requires Acceptable(io, priority, r)
    ensures Fits(r)
  {
  }

  /** Decoding is decided by the first request: more bytes change neither a request found nor
      an error found. */
  lemma DecodeStable(io: nat, b: seq<Byte>, more: seq<Byte>)
    ensures Decode(io, b).Got? ==> Decode(io, b + more) == Decode(io, b)
    ensures Decode(io, b).Bad? ==> Decode(io, b + more).Bad?
  {
    hide Build, DataLength, Finish;
    if |b| >= 16 {
      assert (b + more)[..16] == b[..16];
      var head := Words(b[..16]);
      var code := head[2] % U16;
      var n := 4 * FixedWords(code);
      if |b| >= n {
        assert (b + more)[..n] == b[..n];
        var d := DataLength(io, code, Words(b[..n]));
        if d.Some? && |b| >= n + d.value {
          assert (b + more)[n..n + d.value] == b[n..n + d.value];
        }
      }
    }
  }
}
