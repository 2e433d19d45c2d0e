/** Values shared by the server, its offices and its clients: 32-bit integers,
    requests, replies, accounts (PROJ2/src/types.h, PROJ2/src/constants.h). */
module BankTypes {

  datatype Option<+T> = None | Some(value: T)

  type byte = x: int | 0 <= x < 256

  /** A C string without its terminating NUL. */
  type Text = seq<byte>

  const TWO_32: int := 0x1_0000_0000
  type uint32 = x: int | 0 <= x < 0x1_0000_0000

  const MAX_BALANCE: uint32 := 1_000_000_000
  const MIN_BALANCE: uint32 := 1
  const ADMIN: uint32 := 0
  const MAX_BANK_ACCOUNTS: uint32 := 4096
  const MIN_PASSWORD_LEN: nat := 8
  const MAX_PASSWORD_LEN: nat := 20

  /** Unsigned addition and subtraction wrap around at 2^32, as in C. */
  function Add32(a: uint32, b: uint32): uint32 {
    if a + b < TWO_32 then a + b else a + b - TWO_32
  }

  function Sub32(a: uint32, b: uint32): uint32 {
    if b <= a then a - b else a - b + TWO_32
  }

  /** The conversion of a C `int` to `uint32_t`. */
  function ToUint32(x: int): uint32 {
    x % TWO_32
  }

  datatype Operation =
    | CreateAccount(newId: uint32, balance: uint32, newPassword: Text)
    | Balance
    | Transfer(destId: uint32, amount: uint32)
    | Shutdown

  datatype Request = Request(pid: uint32, id: uint32, password: Text, delay: uint32, op: Operation)

  datatype OpType = OpCreate | OpBalance | OpTransfer | OpShutdown

  function TypeOf(op: Operation): OpType {
    match op
    case CreateAccount(_, _, _) => OpCreate
    case Balance => OpBalance
    case Transfer(_, _) => OpTransfer
    case Shutdown => OpShutdown
  }

  /** Every account id the request names is an index of the account table. */
  predicate InRange(req: Request, accounts: nat) {
    && req.id < accounts
    && (req.op.CreateAccount? ==> req.op.newId < accounts)
    && (req.op.Transfer? ==> req.op.destId < accounts)
  }

  /** What the client checks about an opening balance. */
  predicate BoundedOpening(req: Request) {
    req.op.CreateAccount? ==> req.op.balance <= MAX_BALANCE
  }

  datatype RetCode =
    | Ok | SrvDown | SrvTimeout | UsrDown | LoginFail | OpNotAllowed | IdInUse
    | IdNotFound | SameId | NoFunds | TooHigh | Other

  function CodeNumber(c: RetCode): nat {
    match c
    case Ok => 0
    case SrvDown => 1
    case SrvTimeout => 2
    case UsrDown => 3
    case LoginFail => 4
    case OpNotAllowed => 5
    case IdInUse => 6
    case IdNotFound => 7
    case SameId => 8
    case NoFunds => 9
    case TooHigh => 10
    case Other => 11
  }

  /** `length` counts the value bytes that are sent; `payload` is the 4-byte union
      behind the reply header (balance or number of active offices). */
  datatype Reply = Reply(op: OpType, length: uint32, id: uint32, code: RetCode, payload: uint32)

  const REPLY_HEADER_SIZE: uint32 := 8
  const REPLY_PAYLOAD_SIZE: uint32 := 4

  datatype Account = Account(id: uint32, hash: Text, salt: Text, balance: uint32)

  /** `generateHash`: a total function of password and salt, otherwise unknown. */
  type Hasher = (Text, Text) -> Text
}

/** The reply constructors of PROJ2/src/replymaker.c. Fields those leave uninitialised
    are never sent, and are 0 here. */
module Replies {
  import opened BankTypes

  function MakeErrorReply(code: RetCode, req: Request): Reply {
    Reply(TypeOf(req.op), REPLY_HEADER_SIZE, req.id, code, 0)
  }

  function MakeShutdownReply(id: uint32, activeOffices: uint32): Reply {
    Reply(OpShutdown, REPLY_HEADER_SIZE + REPLY_PAYLOAD_SIZE, id, Ok, activeOffices)
  }

  function MakeBalanceReply(id: uint32, balance: uint32): Reply {
    Reply(OpBalance, REPLY_HEADER_SIZE + REPLY_PAYLOAD_SIZE, id, Ok, balance)
  }

  function MakeTransferReply(id: uint32, balance: uint32, code: RetCode): Reply {
    Reply(OpTransfer, REPLY_HEADER_SIZE + REPLY_PAYLOAD_SIZE, id, code, balance)
  }

  function MakeCreateReply(id: uint32): Reply {
    Reply(OpCreate, REPLY_HEADER_SIZE, id, Ok, 0)
  }
}
