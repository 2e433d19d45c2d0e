/** The client's checks on already parsed arguments (PROJ2/src/user.c). */
module Client {
  import opened BankTypes
  import opened Bytes
  import opened RequestWire

  /** A C `int`. */
  predicate IsInt(x: int) {
    -0x8000_0000 <= x < 0x8000_0000
  }

  /** The words of the operation's argument string; a missing one is None. */
  datatype Words = Words(first: Option<int>, second: Option<int>, third: Option<Text>)

  datatype UserArgs = UserArgs(pid: uint32, opcode: int, id: int, password: Text, delayMS: int, words: Words)

  predicate Parsed(args: UserArgs) {
    && IsInt(args.opcode) && IsInt(args.id) && IsInt(args.delayMS) && IsPassword(args.password)
    && (args.words.first.Some? ==> IsInt(args.words.first.value))
    && (args.words.second.Some? ==> IsInt(args.words.second.value))
    && (args.words.third.Some? ==> 0 !in args.words.third.value)
  }

  /** `makeCreateAccReq`; None where the source calls exit(1). */
  function MakeCreate(words: Words): Option<Operation> {
    if words.first.None? || words.second.None? || words.third.None? then None
    else
      var id, balance := ToUint32(words.first.value), ToUint32(words.second.value);
      var password := words.third.value;
      if id <= 0 || id > MAX_BANK_ACCOUNTS then None
      else if balance <= 0 || balance > MAX_BALANCE then None
      else if |password| < MIN_PASSWORD_LEN || |password| > MAX_PASSWORD_LEN then None
      else Some(CreateAccount(id, balance, password))
  }

  /** `makeTransferReq` */
  function MakeTransfer(words: Words): Option<Operation> {
    if words.first.None? || words.second.None? then None
    else
      var id, amount := ToUint32(words.first.value), ToUint32(words.second.value);
      if id <= 0 || id > MAX_BANK_ACCOUNTS then None
      else if amount <= 0 || amount > MAX_BALANCE then None
      else Some(Transfer(id, amount))
  }

  /** `createRequest` with `makeReqHeader`, whose tests on unsigned fields for being
      negative never fire. */
  function CreateRequest(args: UserArgs): Option<Request> {
    if args.opcode < 0 || args.opcode >= 4 then None
    else
      var id, delay := ToUint32(args.id), ToUint32(args.delayMS);
      if id < 0 || id > MAX_BANK_ACCOUNTS then None
      else if delay < 0 then None
      else
        var op := if args.opcode == 0 then MakeCreate(args.words)
                  else if args.opcode == 2 then MakeTransfer(args.words)
                  else if args.opcode == 1 then Some(Balance)
                  else Some(Shutdown);
        if op.None? then None else Some(Request(args.pid, id, args.password, delay, op.value))
  }

  /** What is accepted, in terms of the numbers that were typed. */
  predicate Acceptable(args: UserArgs) {
    && 0 <= args.opcode <= 3 && 0 <= args.id <= 4096
    && (args.opcode == 0 ==>
          && args.words.first.Some? && 1 <= args.words.first.value <= 4096
          && args.words.second.Some? && 1 <= args.words.second.value <= 1_000_000_000
          && args.words.third.Some? && 8 <= |args.words.third.value| <= 20)
    && (args.opcode == 2 ==>
          && args.words.first.Some? && 1 <= args.words.first.value <= 4096
          && args.words.second.Some? && 1 <= args.words.second.value <= 1_000_000_000)
  }

  lemma AcceptedExactly(args: UserArgs)
    requires Parsed(args)
    ensures CreateRequest(args).Some? <==> Acceptable(args)
  {
    WrapIsLarge(args.id);
    if args.words.first.Some? {
      WrapIsLarge(args.words.first.value);
    }
    if args.words.second.Some? {
      WrapIsLarge(args.words.second.value);
    }
  }

  /** A negative `int` becomes an unsigned number above every limit. */
  lemma WrapIsLarge(x: int)
    requires IsInt(x)
    ensures ToUint32(x) == if x >= 0 then x else x + TWO_32
  {
  }

  /** An accepted request says what was typed. */
  lemma AcceptedSaysWhatWasTyped(args: UserArgs)
    requires Parsed(args) && CreateRequest(args).Some?
    ensures var req, words := CreateRequest(args).value, args.words;
            && req.pid == args.pid && req.id == args.id && req.password == args.password
            && req.delay == (if args.delayMS >= 0 then args.delayMS else args.delayMS + TWO_32)
            && (args.opcode == 0 ==>
                  && words.first.Some? && words.second.Some? && words.third.Some?
                  && req.op == CreateAccount(words.first.value, words.second.value, words.third.value))
            && (args.opcode == 1 ==> req.op == Balance)
            && (args.opcode == 2 ==>
                  && words.first.Some? && words.second.Some?
                  && req.op == Transfer(words.first.value, words.second.value))
            && (args.opcode == 3 ==> req.op == Shutdown)
  {
    AcceptedExactly(args);
    WrapIsLarge(args.id);
    WrapIsLarge(args.delayMS);
  }

  /** The account ids are indices of the server's table exactly unless one of them is
      4096, and the delay is the one typed exactly when that is not negative. */
  lemma AcceptedNumbers(args: UserArgs)
    requires Parsed(args) && CreateRequest(args).Some?
    ensures var req := CreateRequest(args).value;
            && BoundedOpening(req)
            && (InRange(req, MAX_BANK_ACCOUNTS) <==>
                  args.id != 4096 && (args.opcode == 0 || args.opcode == 2 ==> args.words.first != Some(4096)))
            && (req.delay == args.delayMS <==> args.delayMS >= 0)
  {
    AcceptedExactly(args);
    WrapIsLarge(args.id);
    WrapIsLarge(args.delayMS);
    if args.opcode == 0 || args.opcode == 2 {
      WrapIsLarge(args.words.first.value);
    }
  }

  /** A balance query of account 4096 passes the checks; the table ends at 4095. */
  lemma OutsideTableExample(pid: uint32, password: Text)
    requires IsPassword(password)
    ensures var args := UserArgs(pid, 1, 4096, password, 0, Words(None, None, None));
            && Parsed(args) && CreateRequest(args) == Some(Request(pid, 4096, password, 0, Balance))
            && !InRange(CreateRequest(args).value, MAX_BANK_ACCOUNTS)
  {
    WrapIsLarge(4096);
    WrapIsLarge(0);
  }

  /** A delay of -1 ms passes and becomes one of 2^32 - 1 ms. */
  lemma NegativeDelayExample(pid: uint32, password: Text)
    requires IsPassword(password)
    ensures var args := UserArgs(pid, 1, 1, password, -1, Words(None, None, None));
            && Parsed(args)
            && CreateRequest(args) == Some(Request(pid, 1, password, 0xFFFF_FFFF, Balance))
  {
    WrapIsLarge(1);
    WrapIsLarge(-1);
  }

  /** What the client accepts the server decodes unchanged. */
  lemma AcceptedArrives(args: UserArgs, g: Garbage)
    requires Parsed(args) && CreateRequest(args).Some? && GarbageFits(g)
    ensures Sendable(CreateRequest(args).value)
    ensures DecodeFrame(FrameOf(CreateRequest(args).value, g)) == CreateRequest(args)
  {
    hide DecodeFrame, FrameOf;
    FrameRoundTrip(CreateRequest(args).value, g);
  }
}
