/** Messages as bytes. Every fixed part on the wire is a run of little-endian 32-bit words:
    a 64-bit field is two words, low half first, and two 16-bit fields share one, first
    field in the low half. Variable data follow the fixed part. */
module Wire {
  import opened Protocol

  type Word = x: int | 0 <= x < U32

  function WordBytes(x: Word): (r: seq<Byte>)
    ensures |r| == 4
  {
    [x % 256, x / 256 % 256, x / 65536 % 256, x / 16777216]
  }

  function WordOf(b: seq<Byte>): Word
    requires |b| == 4
  {
    var b0: int, b1: int, b2: int, b3: int := b[0], b[1], b[2], b[3];
    b0 + 256 * b1 + 65536 * b2 + 16777216 * b3
  }

  lemma WordRoundTrip(x: Word)
    ensures WordOf(WordBytes(x)) == x
  {
    var y := x / 256;
    var z := y / 256;
    assert x == x % 256 + 256 * y && y == y % 256 + 256 * z && z == z % 256 + 256 * (z / 256);
    assert z == x / 65536 && z / 256 == x / 16777216;
  }

  lemma BytesRoundTrip(b: seq<Byte>)
    requires |b| == 4
    ensures WordBytes(WordOf(b)) == b
  {
    var x := WordOf(b);
    var b0: int, b1: int, b2: int, b3: int := b[0], b[1], b[2], b[3];
    assert x / 256 == b1 + 256 * b2 + 65536 * b3;
    assert x / 65536 == b2 + 256 * b3;
    assert x / 16777216 == b3;
  }

  function Bytes(ws: seq<Word>): (r: seq<Byte>)
    ensures |r| == 4 * |ws|
  {
    if ws == [] then [] else WordBytes(ws[0]) + Bytes(ws[1..])
  }

  function Words(b: seq<Byte>): (r: seq<Word>)
    requires |b| % 4 == 0
    ensures |r| == |b| / 4
  {
    if b == [] then [] else [WordOf(b[..4])] + Words(b[4..])
  }

  lemma {:induction false} WordsOfBytes(ws: seq<Word>)
    ensures Words(Bytes(ws)) == ws
  {
    if ws != [] {
      WordsOfBytes(ws[1..]);
      WordRoundTrip(ws[0]);
      assert Bytes(ws)[..4] == WordBytes(ws[0]) && Bytes(ws)[4..] == Bytes(ws[1..]);
    }
  }

  lemma {:induction false} BytesOfWords(b: seq<Byte>)
    requires |b| % 4 == 0
    ensures Bytes(Words(b)) == b
  {
    if b != [] {
      BytesOfWords(b[4..]);
      BytesRoundTrip(b[..4]);
      assert b == b[..4] + b[4..];
    }
  }

  /** The words of a prefix are the first words of the whole. */
  lemma {:induction false} WordsPrefix(b: seq<Byte>, n: nat)
    requires |b| % 4 == 0 && 4 * n <= |b|
    ensures Words(b[..4 * n]) == Words(b)[..n]
  {
    if n != 0 {
      WordsPrefix(b[4..], n - 1);
      assert b[..4 * n][4..] == b[4..][..4 * (n - 1)];
      assert b[..4 * n][..4] == b[..4];
    }
  }

  // ---- field packing ------------------------------------------------------------------

  function Pair(low: nat, high: nat): Word
    requires low < U16 && high < U16
  {
    low + U16 * high
  }

  function Low(x: nat): Word
    requires x < U64
  {
    x % U32
  }

  function High(x: nat): Word
    requires x < U64
  {
    x / U32
  }

  /** A 32-bit signed field. */
  function Signed(x: int): Word
    requires -(U32 / 2) <= x < U32 / 2
  {
    if x < 0 then x + U32 else x
  }

  function FromSigned(w: Word): int {
    if w < U32 / 2 then w else w - U32
  }

  // ---- requests -------------------------------------------------------------------------

  const MAGIC: Word := 0x31444f49
  /** Version 1.12: major in the low half. */
  const VERSION: Word := 1 + 12 * 0x1_0000

  const MAX_REQUEST: nat := 4120

  function Code(r: Request): (k: nat)
    ensures k < U16
  {
    match r
    case Nop => 1
    case Timeout(_) => 2
    case Cancel(_) => 3
    case SockRead(_, _) => 4
    case SockWrite(_, _) => 5
    case SockReadFixed(_, _, _) => 6
    case SockWriteFixed(_, _, _) => 7
    case FileRead(_, _) => 8
    case FileWrite(_, _) => 9
    case Poll(_, _) => 10
    case Connect(_, _) => 11
    case Accept(_, _) => 12
    case Openat(_, _, _) => 13
    case Close(_) => 14
    case RegisterFd => 256
    case ReleaseResource(_) => 257
    case RegisterBuffer(_) => 258
    case GetStats => 259
    case GetTrace(_, _) => 260
  }

  /** Whether the request's fields fit their places on the wire. */
  predicate Fits(r: Request) {
    match r
    case Nop => true
    case Timeout(n) => n < U64
    case Cancel(t) => t < U64
    case SockRead(i, n) => i < U32 && n < U32
    case SockWrite(i, d) => i < U32 && |d| < U32
    case SockReadFixed(i, j, n) => i < U32 && j < U32 && n < U32
    case SockWriteFixed(i, j, n) => i < U32 && j < U32 && n < U32
    case FileRead(i, n) => i < U32 && n < U32
    case FileWrite(i, d) => i < U32 && |d| < U32
    case Poll(i, m) => i < U32 && m < U16
    case Connect(i, d) => i < U32 && |d| < U32
    case Accept(i, n) => i < U32 && n < U32
    case Openat(f, m, d) => -(U32 / 2) <= f < U32 / 2 && m < U32 && |d| < U32
    case Close(i) => i < U32
    case RegisterFd => true
    case ReleaseResource(i) => i < U32
    case RegisterBuffer(d) => |d| < U32
    case GetStats => true
    case GetTrace(a, m) => a < U64 && m < U32
  }

  /** The words after the common four. */
  function Fields(r: Request): seq<Word>
    requires Fits(r)
  {
    match r
    case Nop => []
    case Timeout(n) => [Low(n), High(n)]
    case Cancel(t) => [Low(t), High(t)]
    case SockRead(i, n) => [i, n]
    case SockWrite(i, d) => [i, |d|]
    case SockReadFixed(i, j, n) => [i, j, n]
    case SockWriteFixed(i, j, n) => [i, j, n]
    case FileRead(i, n) => [i, n]
    case FileWrite(i, d) => [i, |d|]
    case Poll(i, m) => [i, Pair(m, 0)]
    case Connect(i, d) => [i, |d|]
    case Accept(i, n) => [i, n]
    case Openat(f, m, d) => [Signed(f), m, |d|]
    case Close(i) => [i, 0]
    case RegisterFd => []
    case ReleaseResource(i) => [i, 0]
    case RegisterBuffer(d) => [|d|, 0]
    case GetStats => []
    case GetTrace(a, m) => [Low(a), High(a), m, 0]
  }

  function Data(r: Request): seq<Byte> {
    match r
    case SockWrite(_, d) => d
    case FileWrite(_, d) => d
    case Connect(_, d) => d
    case Openat(_, _, d) => d
    case RegisterBuffer(d) => d
    case _ => []
  }

  function FixedPart(priority: nat, r: Request): seq<Word>
    requires Fits(r) && priority < U16
  {
    [MAGIC, VERSION, Pair(Code(r), priority), 0] + Fields(r)
  }

  /** A request as the library prints it. */
  function Encode(priority: nat, r: Request): seq<Byte>
    requires Fits(r) && priority < U16
  {
    Bytes(FixedPart(priority, r)) + Data(r)
  }
}
