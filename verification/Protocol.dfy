/** The vocabulary shared by the daemon, its parser and the client library:
    requests, task kinds, wire constants and error numbers. */
module Protocol {

  datatype Option<+T> = None | Some(value: T)

  type Byte = x: int | 0 <= x < 256

  const U16: int := 0x1_0000
  const U32: int := 0x1_0000_0000
  const U64: int := 0x1_0000_0000_0000_0000

  /** IOURINGD_TASK_ID_RESERVED_MIN */
  const TASK_ID_RESERVED: int := U64 - 16

  const INT32_MAX: int := 0x7fff_ffff

  // Linux error numbers used in results.
  const ENOENT := 2
  const EIO := 5
  const EBADF := 9
  const EAGAIN := 11
  const EBUSY := 16
  const EINVAL := 22
  const EPROTO := 71
  const EOVERFLOW := 75
  const ENOTSUP := 95

  datatype Kind =
    | KNop | KTimeout | KCancel
    | KSockRead | KSockWrite | KSockReadFixed | KSockWriteFixed
    | KFileRead | KFileWrite
    | KPoll | KConnect | KAccept | KOpenat | KClose

  /** A decoded request, as it waits in a client for dispatch. */
  datatype Request =
    | Nop
    | Timeout(nsec: nat)
    | Cancel(target: nat)
    | SockRead(resource: nat, length: nat)
    | SockWrite(resource: nat, data: seq<Byte>)
    | SockReadFixed(resource: nat, buffer: nat, length: nat)
    | SockWriteFixed(resource: nat, buffer: nat, length: nat)
    | FileRead(resource: nat, length: nat)
    | FileWrite(resource: nat, data: seq<Byte>)
    | Poll(resource: nat, mask: nat)
    | Connect(resource: nat, data: seq<Byte>)
    | Accept(resource: nat, length: nat)
    | Openat(flags: int, mode: nat, data: seq<Byte>)
    | Close(resource: nat)
    | RegisterFd
    | ReleaseResource(resource: nat)
    | RegisterBuffer(data: seq<Byte>)
    | GetStats
    | GetTrace(after: nat, max: nat)

  /** iouringd_request_kind_is_control */
  predicate IsControl(r: Request) {
    r.RegisterFd? || r.ReleaseResource? || r.RegisterBuffer? || r.GetStats? || r.GetTrace?
  }

  function KindOf(r: Request): Kind
    requires !IsControl(r)
  {
    match r
    case Nop => KNop
    case Timeout(_) => KTimeout
    case Cancel(_) => KCancel
    case SockRead(_, _) => KSockRead
    case SockWrite(_, _) => KSockWrite
    case SockReadFixed(_, _, _) => KSockReadFixed
    case SockWriteFixed(_, _, _) => KSockWriteFixed
    case FileRead(_, _) => KFileRead
    case FileWrite(_, _) => KFileWrite
    case Poll(_, _) => KPoll
    case Connect(_, _) => KConnect
    case Accept(_, _) => KAccept
    case Openat(_, _, _) => KOpenat
    case Close(_) => KClose
  }

  /** The request's `io_length`. */
  function LengthOf(r: Request): nat {
    match r
    case SockRead(_, n) => n
    case SockReadFixed(_, _, n) => n
    case SockWriteFixed(_, _, n) => n
    case FileRead(_, n) => n
    case Accept(_, n) => n
    case SockWrite(_, d) => |d|
    case FileWrite(_, d) => |d|
    case Connect(_, d) => |d|
    case Openat(_, _, d) => |d|
    case RegisterBuffer(d) => |d|
    case _ => 0
  }

  /** Task kinds whose completion carries the bytes read. */
  predicate ReadsData(k: Kind) {
    k == KSockRead || k == KSockReadFixed || k == KFileRead
  }

  /** Task kinds that operate on a file slot of the client. */
  predicate NamesFile(k: Kind) {
    k != KNop && k != KTimeout && k != KCancel && k != KOpenat
  }

  /** Task kinds that operate on a registered buffer of the client. */
  predicate NamesBuffer(k: Kind) {
    k == KSockReadFixed || k == KSockWriteFixed
  }

  /** Task kinds that produce a new file in a slot reserved at admission. */
  predicate MakesFile(k: Kind) {
    k == KAccept || k == KOpenat
  }

  /** What the client library accepts as a completion record (`completion_record_is_valid`);
      the header is checked apart, where records are bytes. */
  predicate CompletionValid(id: nat, k: Kind, res: int, payload: nat) {
    && 0 < id < TASK_ID_RESERVED
    && if ReadsData(k) then
         if res < 0 then payload == 0 else res < U16 && payload == res
       else if k == KAccept then
         if res < 0 then payload == 0 else res > 0
       else
         payload == 0
  }
}
