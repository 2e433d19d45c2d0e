/** The server of PROJ2/src/bankoffice.c as a machine that takes one small step at a
    time: the main thread (sole producer, then drain) and any number of bank offices,
    interleaved in any order over shared memory. Every semaphore, mutex, flag and queue
    operation is a step of its own, and so are the debit and the credit of a transfer
    and both writes of a new account. Reads of account entries are grouped with the test
    or the reply they serve, while the mutexes of those entries are held. */
module OfficeMachine {
  import opened BankTypes
  import opened Replies
  import Rings

  datatype Config = Config(offices: nat, accounts: nat, bufferSize: nat, hash: Hasher)

  /** accountMutexes[a] is held by office `locks[a]`. */
  datatype Bank = Bank(used: seq<bool>, accounts: seq<Account>, locks: seq<Option<nat>>)

  // Program counters. Each names the step that the thread takes next.

  datatype ValidatePc = VLock | VGet | VCheck | VUnlock(valid: bool)
  datatype CreatePc = CLock | CCheck | CWrite | CMark | CReply | CUnlock
  datatype BalancePc = BLock | BRead | BUnlock
  datatype TransferPc =
    | TLockFirst | TLockSecond | TGet | TFunds | THigh | TDebit | TCredit | TReply
    | TUnlockFirst | TUnlockSecond

  datatype Pc =
    | Start | WaitFull | SetActive | LockQueue | Pop | UnlockQueue | PostEmpty
    | Validating(v: ValidatePc)
    | Creating(c: CreatePc)
    | Querying(b: BalancePc)
    | Transferring(t: TransferPc)
    | Closing
    | Counting(next: nat, sum: nat)
    | Replying
    | ClearActive
    | Fault // a pop from an empty queue or a dereferenced NULL account

  datatype Office = Office(pc: Pc, req: Request, reply: Reply, salt: Text)

  datatype MainPc =
    | Reading
    | WaitEmpty(req: Request) | LockQueueM(req: Request) | PushM(req: Request) | UnlockQueueM | PostFull
    | DrainLock | DrainCheck | DrainUnlock(empty: bool)
    | Scanning(next: nat, sum: nat)
    | Cancelling // the first pthread_cancel comes next

  datatype Thread = Main | Worker(office: nat)

  datatype Machine = Machine(
    bank: Bank,
    offices: seq<Office>,
    active: seq<bool>,
    queue: Rings.Ring<Request>,
    mutex: Option<Thread>,
    emptySem: nat,
    fullSem: nat,
    inputClosed: bool,
    main: MainPc)

  // ----- well-formed machines -----

  /** An office is in the handler that its request's type selects. */
  predicate PcMatches(o: Office, cfg: Config) {
    match o.pc
    case Creating(_) => o.req.op.CreateAccount?
    case Querying(_) => o.req.op.Balance?
    case Transferring(t) =>
      o.req.op.Transfer? && (t.TLockSecond? || t.TUnlockSecond? ==> o.req.id != o.req.op.destId)
    case Closing => o.req.op.Shutdown?
    case Counting(next, _) => o.req.op.Shutdown? && next <= cfg.offices
    case _ => true
  }

  /** Between taking a request and having replied to it. */
  predicate InHand(pc: Pc) {
    || pc.UnlockQueue? || pc.PostEmpty?
    || Handling(pc)
  }

  predicate Handling(pc: Pc) {
    || pc.Validating? || pc.Creating? || pc.Querying? || pc.Transferring?
    || pc.Closing? || pc.Counting? || pc.Replying?
  }

  predicate OfficeFits(o: Office, cfg: Config) {
    InHand(o.pc) ==> InRange(o.req, cfg.accounts) && PcMatches(o, cfg)
  }

  predicate BankFits(b: Bank, cfg: Config) {
    |b.used| == cfg.accounts && |b.accounts| == cfg.accounts && |b.locks| == cfg.accounts
  }

  predicate MainFits(main: MainPc, cfg: Config) {
    && (main.WaitEmpty? || main.LockQueueM? || main.PushM? ==> InRange(main.req, cfg.accounts))
    && (main.Scanning? ==> main.next <= cfg.offices)
  }

  predicate QueueFits(q: Rings.Ring<Request>, cfg: Config) {
    && Rings.Valid(q)
    && forall k :: 0 <= k < q.size ==> InRange(Rings.Contents(q)[k], cfg.accounts)
  }

  predicate Fits(m: Machine, cfg: Config) {
    && cfg.offices > 0 && cfg.accounts > 0 && cfg.bufferSize > 0 && cfg.offices < TWO_32
    && BankFits(m.bank, cfg)
    && |m.offices| == cfg.offices && |m.active| == cfg.offices
    && (forall i :: 0 <= i < |m.offices| ==> OfficeFits(m.offices[i], cfg))
    && QueueFits(m.queue, cfg)
    && MainFits(m.main, cfg)
  }

  // ----- steps that touch the bank -----

  datatype Effect = Effect(bank: Bank, office: Office)

  function Locked(b: Bank, a: nat, i: nat): Bank
    requires a < |b.locks|
  {
    b.(locks := b.locks[a := Some(i)])
  }

  function Unlocked(b: Bank, a: nat): Bank
    requires a < |b.locks|
  {
    b.(locks := b.locks[a := None])
  }

  function WithBalance(b: Bank, a: nat, balance: uint32): Bank
    requires a < |b.accounts|
  {
    b.(accounts := b.accounts[a := b.accounts[a].(balance := balance)])
  }

  /** The `switch` of `manageRequest`. */
  function Dispatch(op: Operation): Pc {
    match op
    case CreateAccount(_, _, _) => Creating(CLock)
    case Balance => Querying(BLock)
    case Transfer(_, _) => Transferring(TLockFirst)
    case Shutdown => Closing
  }

  function Min(a: uint32, b: uint32): uint32 { if a < b then a else b }

  function Max(a: uint32, b: uint32): uint32 { if a > b then a else b }

  /** The first half of `manageRequest` with `validateAccount`. */
  function ValidateStep(b: Bank, i: nat, o: Office, v: ValidatePc, cfg: Config): Effect
    requires BankFits(b, cfg) && InRange(o.req, cfg.accounts)
  {
    var id := o.req.id;
    match v
    case VLock => Effect(Locked(b, id, i), o.(pc := Validating(VGet)))
    case VGet =>
      if b.used[id] then Effect(b, o.(pc := Validating(VCheck)))
      else Effect(b, o.(pc := Validating(VUnlock(false)), reply := MakeErrorReply(IdNotFound, o.req)))
    case VCheck =>
      if cfg.hash(o.req.password, b.accounts[id].salt) == b.accounts[id].hash
      then Effect(b, o.(pc := Validating(VUnlock(true))))
      else Effect(b, o.(pc := Validating(VUnlock(false)), reply := MakeErrorReply(LoginFail, o.req)))
    case VUnlock(valid) =>
      Effect(Unlocked(b, id), o.(pc := if valid then Dispatch(o.req.op) else Replying))
  }

  function NewAccount(req: Request, salt: Text, cfg: Config): Account
    requires req.op.CreateAccount?
  {
    Account(req.op.newId, cfg.hash(req.op.newPassword, salt), salt, req.op.balance)
  }

  /** `handleCreateAccountRequest` inside `getSingleAccountAccess`; `salt` is what
      `generateSalt` returns. */
  function CreateStep(b: Bank, i: nat, o: Office, c: CreatePc, salt: Text, cfg: Config): Effect
    requires BankFits(b, cfg) && InRange(o.req, cfg.accounts) && o.req.op.CreateAccount?
  {
    var newId := o.req.op.newId;
    match c
    case CLock => Effect(Locked(b, newId, i), o.(pc := Creating(CCheck)))
    case CCheck =>
      if o.req.id != ADMIN
      then Effect(b, o.(pc := Creating(CUnlock), reply := MakeErrorReply(OpNotAllowed, o.req)))
      else if b.used[newId]
      then Effect(b, o.(pc := Creating(CUnlock), reply := MakeErrorReply(IdInUse, o.req)))
      else Effect(b, o.(pc := Creating(CWrite)))
    case CWrite =>
      Effect(b.(accounts := b.accounts[newId := NewAccount(o.req, salt, cfg)]),
             o.(pc := Creating(CMark), salt := salt))
    case CMark => Effect(b.(used := b.used[newId := true]), o.(pc := Creating(CReply)))
    case CReply => Effect(b, o.(pc := Creating(CUnlock), reply := MakeCreateReply(o.req.id)))
    case CUnlock => Effect(Unlocked(b, newId), o.(pc := Replying))
  }

  /** `handleBalanceRequest` inside `getSingleAccountAccess`. */
  function BalanceStep(b: Bank, i: nat, o: Office, q: BalancePc, cfg: Config): Effect
    requires BankFits(b, cfg) && InRange(o.req, cfg.accounts)
  {
    var id := o.req.id;
    match q
    case BLock => Effect(Locked(b, id, i), o.(pc := Querying(BRead)))
    case BRead =>
      if id == ADMIN
      then Effect(b, o.(pc := Querying(BUnlock), reply := MakeErrorReply(OpNotAllowed, o.req)))
      else if !b.used[id] then Effect(b, o.(pc := Fault))
      else Effect(b, o.(pc := Querying(BUnlock),
                        reply := MakeBalanceReply(b.accounts[id].id, b.accounts[id].balance)))
    case BUnlock => Effect(Unlocked(b, id), o.(pc := Replying))
  }

  function RefuseTransfer(b: Bank, o: Office, code: RetCode): Effect
    requires o.req.id < |b.accounts|
  {
    var src := b.accounts[o.req.id];
    Effect(b, o.(pc := Transferring(TUnlockFirst), reply := MakeTransferReply(src.id, src.balance, code)))
  }

  /** `handleTransferRequest` between `getDoubleAccountAccess` and `unlockDoubleAccount`. */
  function TransferStep(b: Bank, i: nat, o: Office, t: TransferPc, cfg: Config): Effect
    requires BankFits(b, cfg) && InRange(o.req, cfg.accounts) && o.req.op.Transfer?
  {
    var id, dest, amount := o.req.id, o.req.op.destId, o.req.op.amount;
    match t
    case TLockFirst =>
      Effect(Locked(b, Min(id, dest), i), o.(pc := Transferring(if id == dest then TGet else TLockSecond)))
    case TLockSecond => Effect(Locked(b, Max(id, dest), i), o.(pc := Transferring(TGet)))
    case TGet =>
      if !b.used[id] then Effect(b, o.(pc := Fault))
      else if b.accounts[id].id == ADMIN then RefuseTransfer(b, o, OpNotAllowed)
      else if !b.used[dest] then RefuseTransfer(b, o, IdNotFound)
      else if b.accounts[dest].id == ADMIN then RefuseTransfer(b, o, OpNotAllowed)
      else if b.accounts[id].id == dest then RefuseTransfer(b, o, SameId)
      else Effect(b, o.(pc := Transferring(TFunds)))
    case TFunds =>
      if b.accounts[id].balance < amount then RefuseTransfer(b, o, NoFunds)
      else Effect(b, o.(pc := Transferring(THigh)))
    case THigh =>
      if Add32(b.accounts[dest].balance, amount) > MAX_BALANCE then RefuseTransfer(b, o, TooHigh)
      else Effect(b, o.(pc := Transferring(TDebit)))
    case TDebit =>
      Effect(WithBalance(b, id, Sub32(b.accounts[id].balance, amount)), o.(pc := Transferring(TCredit)))
    case TCredit =>
      Effect(WithBalance(b, dest, Add32(b.accounts[dest].balance, amount)), o.(pc := Transferring(TReply)))
    case TReply => RefuseTransfer(b, o, Ok)
    case TUnlockFirst =>
      Effect(Unlocked(b, Max(id, dest)),
             o.(pc := if id == dest then Replying else Transferring(TUnlockSecond)))
    case TUnlockSecond => Effect(Unlocked(b, Min(id, dest)), o.(pc := Replying))
  }

  /** One step of `manageRequest` on the shared accounts. */
  function BankStep(b: Bank, i: nat, o: Office, salt: Text, cfg: Config): Effect
    requires BankFits(b, cfg) && InRange(o.req, cfg.accounts) && PcMatches(o, cfg)
    requires OnAccounts(o.pc)
  {
    match o.pc
    case Validating(v) => ValidateStep(b, i, o, v, cfg)
    case Creating(c) => CreateStep(b, i, o, c, salt, cfg)
    case Querying(q) => BalanceStep(b, i, o, q, cfg)
    case Transferring(t) => TransferStep(b, i, o, t, cfg)
  }

  predicate OnAccounts(pc: Pc) {
    pc.Validating? || pc.Creating? || pc.Querying? || pc.Transferring?
  }

  /** The account mutex an office waits for, if it waits for one. */
  function Wanted(o: Office): Option<nat>
  {
    match o.pc
    case Validating(v) => if v.VLock? then Some(o.req.id) else None
    case Creating(c) => if c.CLock? && o.req.op.CreateAccount? then Some(o.req.op.newId) else None
    case Querying(q) => if q.BLock? then Some(o.req.id) else None
    case Transferring(t) =>
      if t.TLockFirst? && o.req.op.Transfer? then Some(Min(o.req.id, o.req.op.destId))
      else if t.TLockSecond? && o.req.op.Transfer? then Some(Max(o.req.id, o.req.op.destId))
      else None
    case _ => None
  }

  // ----- steps of the whole machine -----

  /** What the main thread reads: a request, the end of input, or a message of length 0,
      on which the loop stops as at the end of input. */
  datatype Input = NoInput | Arrival(req: Request) | EmptyMessage | EndOfInput

  datatype Step = OfficeStep(office: nat, salt: Text) | MainStep(input: Input)

  predicate OfficeEnabled(m: Machine, i: nat, cfg: Config)
    requires Fits(m, cfg)
  {
    && i < cfg.offices
    && var o := m.offices[i];
       if o.pc.WaitFull? then m.fullSem > 0
       else if o.pc.LockQueue? then m.mutex.None?
       else if OnAccounts(o.pc) then Wanted(o).Some? ==> m.bank.locks[Wanted(o).value].None?
       else !o.pc.Fault?
  }

  function SetOffice(m: Machine, i: nat, o: Office): Machine
    requires i < |m.offices|
  {
    m.(offices := m.offices[i := o])
  }

  /** `runBankOffice` around `manageRequest`, with `getRequestFromQueue` and `sendReply`. */
  function LoopStep(m: Machine, i: nat, cfg: Config): Machine
    requires Fits(m, cfg) && OfficeEnabled(m, i, cfg) && InLoop(m.offices[i].pc)
  {
    var o := m.offices[i];
    match o.pc
    case Start => SetOffice(m, i, o.(pc := WaitFull)).(active := m.active[i := false])
    case WaitFull => SetOffice(m, i, o.(pc := SetActive)).(fullSem := m.fullSem - 1)
    case SetActive => SetOffice(m, i, o.(pc := LockQueue)).(active := m.active[i := true])
    case LockQueue => SetOffice(m, i, o.(pc := Pop)).(mutex := Some(Worker(i)))
    case Pop =>
      if m.queue.size == 0 then SetOffice(m, i, o.(pc := Fault))
      else
        SetOffice(m, i, o.(pc := UnlockQueue, req := m.queue.cells[m.queue.front]))
        .(queue := Rings.Dequeue(m.queue))
    case UnlockQueue => SetOffice(m, i, o.(pc := PostEmpty)).(mutex := None)
    case PostEmpty => SetOffice(m, i, o.(pc := Validating(VLock))).(emptySem := m.emptySem + 1)
    case Replying => SetOffice(m, i, o.(pc := ClearActive))
    case ClearActive => SetOffice(m, i, o.(pc := WaitFull)).(active := m.active[i := false])
  }

  predicate InLoop(pc: Pc) {
    || pc.Start? || pc.WaitFull? || pc.SetActive? || pc.LockQueue? || pc.Pop? || pc.UnlockQueue?
    || pc.PostEmpty? || pc.Replying? || pc.ClearActive?
  }

  /** `handleShutdownRequest`: ends the input, then `getNumActiveOffices` one flag a step. */
  function ShutdownStep(m: Machine, i: nat, cfg: Config): Machine
    requires Fits(m, cfg) && OfficeEnabled(m, i, cfg)
    requires m.offices[i].pc.Closing? || m.offices[i].pc.Counting?
  {
    var o := m.offices[i];
    match o.pc
    case Closing =>
      if o.req.id == ADMIN then SetOffice(m, i, o.(pc := Counting(0, 0))).(inputClosed := true)
      else SetOffice(m, i, o.(pc := Replying, reply := MakeErrorReply(OpNotAllowed, o.req)))
    case Counting(next, sum) =>
      if next < cfg.offices then
        SetOffice(m, i, o.(pc := Counting(next + 1, if m.active[next] then sum + 1 else sum)))
      else
        SetOffice(m, i, o.(pc := Replying, reply := MakeShutdownReply(o.req.id, ToUint32(sum))))
  }

  function AccountStep(m: Machine, i: nat, salt: Text, cfg: Config): Machine
    requires Fits(m, cfg) && OfficeEnabled(m, i, cfg) && OnAccounts(m.offices[i].pc)
  {
    var e := BankStep(m.bank, i, m.offices[i], salt, cfg);
    SetOffice(m, i, e.office).(bank := e.bank)
  }

  function OfficeApply(m: Machine, i: nat, salt: Text, cfg: Config): Machine
    requires Fits(m, cfg) && OfficeEnabled(m, i, cfg)
  {
    var pc := m.offices[i].pc;
    if InLoop(pc) then LoopStep(m, i, cfg)
    else if OnAccounts(pc) then AccountStep(m, i, salt, cfg)
    else ShutdownStep(m, i, cfg)
  }

  /** A read returns nothing after an office closed the server's own writing end, or
      at any time when the message announces an empty value. */
  predicate MainEnabled(m: Machine, input: Input, cfg: Config)
    requires Fits(m, cfg)
  {
    match m.main
    case Reading =>
      || (input.Arrival? && InRange(input.req, cfg.accounts))
      || input.EmptyMessage?
      || (input.EndOfInput? && m.inputClosed)
    case WaitEmpty(_) => input.NoInput? && m.emptySem > 0
    case LockQueueM(_) => input.NoInput? && m.mutex.None?
    case DrainLock => input.NoInput? && m.mutex.None?
    case Cancelling => false
    case _ => input.NoInput?
  }

  /** `readRequests` with `addRequestToQueue`, then `waitForRequestFinish`. */
  function MainApply(m: Machine, input: Input, cfg: Config): Machine
    requires Fits(m, cfg) && MainEnabled(m, input, cfg)
  {
    match m.main
    case Reading => m.(main := if input.Arrival? then WaitEmpty(input.req) else DrainLock)
    case WaitEmpty(req) => m.(main := LockQueueM(req), emptySem := m.emptySem - 1)
    case LockQueueM(req) => m.(main := PushM(req), mutex := Some(Main))
    case PushM(req) => m.(main := UnlockQueueM, queue := Rings.Push(m.queue, req))
    case UnlockQueueM => m.(main := PostFull, mutex := None)
    case PostFull => m.(main := Reading, fullSem := m.fullSem + 1)
    case DrainLock => m.(main := DrainCheck, mutex := Some(Main))
    case DrainCheck => m.(main := DrainUnlock(m.queue.size == 0))
    case DrainUnlock(empty) => m.(main := if empty then Scanning(0, 0) else DrainLock, mutex := None)
    case Scanning(next, sum) =>
      if next < cfg.offices then
        m.(main := Scanning(next + 1, if m.active[next] then sum + 1 else sum))
      else
        m.(main := if sum > 0 then Scanning(0, 0) else Cancelling)
    case Cancelling => m
  }

  predicate Enabled(m: Machine, step: Step, cfg: Config)
    requires Fits(m, cfg)
  {
    match step
    case OfficeStep(i, _) => OfficeEnabled(m, i, cfg)
    case MainStep(input) => MainEnabled(m, input, cfg)
  }

  function Apply(m: Machine, step: Step, cfg: Config): (m': Machine)
    requires Fits(m, cfg) && Enabled(m, step, cfg)
    ensures Fits(m', cfg)
  {
    match step
    case OfficeStep(i, salt) =>
      OfficeApplyFits(m, i, salt, cfg);
      OfficeApply(m, i, salt, cfg)
    case MainStep(input) =>
      MainApplyFits(m, input, cfg);
      MainApply(m, input, cfg)
  }

  lemma BankStepFits(b: Bank, i: nat, o: Office, salt: Text, cfg: Config)
    requires BankFits(b, cfg) && InRange(o.req, cfg.accounts) && PcMatches(o, cfg) && OnAccounts(o.pc)
    ensures var e := BankStep(b, i, o, salt, cfg);
            && BankFits(e.bank, cfg) && e.office.req == o.req && PcMatches(e.office, cfg)
            && (Handling(e.office.pc) || e.office.pc.Fault?)
  {
  }

  lemma DequeueFits(q: Rings.Ring<Request>, cfg: Config)
    requires QueueFits(q, cfg) && q.size > 0
    ensures QueueFits(Rings.Dequeue(q), cfg) && InRange(q.cells[q.front], cfg.accounts)
  {
    Rings.DequeueRemovesHead(q);
    var q' := Rings.Dequeue(q);
    assert Rings.Contents(q)[0] == q.cells[q.front];
    forall k | 0 <= k < q'.size
      ensures InRange(Rings.Contents(q')[k], cfg.accounts)
    {
      assert Rings.Contents(q)[k + 1] == Rings.Contents(q')[k];
    }
  }

  lemma LoopStepFits(m: Machine, i: nat, cfg: Config)
    requires Fits(m, cfg) && OfficeEnabled(m, i, cfg) && InLoop(m.offices[i].pc)
    ensures Fits(LoopStep(m, i, cfg), cfg)
  {
    if m.offices[i].pc.Pop? && m.queue.size > 0 {
      DequeueFits(m.queue, cfg);
    }
  }

  lemma OfficeApplyFits(m: Machine, i: nat, salt: Text, cfg: Config)
    requires Fits(m, cfg) && OfficeEnabled(m, i, cfg)
    ensures Fits(OfficeApply(m, i, salt, cfg), cfg)
  {
    if InLoop(m.offices[i].pc) {
      LoopStepFits(m, i, cfg);
    } else if OnAccounts(m.offices[i].pc) {
      BankStepFits(m.bank, i, m.offices[i], salt, cfg);
    }
  }

  lemma MainApplyFits(m: Machine, input: Input, cfg: Config)
    requires Fits(m, cfg) && MainEnabled(m, input, cfg)
    ensures Fits(MainApply(m, input, cfg), cfg)
  {
    if m.main.PushM? {
      Rings.PushAppends(m.queue, m.main.req);
    }
  }

  // ----- initial machines -----

  /** After `setupAccounts`, `createQueue` and `pthread_create`: only the administrator
      exists. Memory that the source leaves uninitialised is arbitrary. */
  predicate InitBank(b: Bank, cfg: Config)
    requires cfg.accounts > 0
  {
    && BankFits(b, cfg)
    && (forall a :: 0 <= a < cfg.accounts ==> b.used[a] == (a == 0) && b.locks[a].None?)
    && b.accounts[0].id == ADMIN && b.accounts[0].balance == 0
  }

  predicate InitMachine(m: Machine, cfg: Config)
    ensures InitMachine(m, cfg) ==> Fits(m, cfg)
  {
    && 0 < cfg.offices < TWO_32 && cfg.accounts > 0 && cfg.bufferSize > 0
    && InitBank(m.bank, cfg)
    && |m.offices| == cfg.offices && |m.active| == cfg.offices
    && (forall i :: 0 <= i < cfg.offices ==> m.offices[i].pc == Start)
    && |m.queue.cells| == cfg.bufferSize
    && m.queue.front == 0 && m.queue.size == 0 && m.queue.rear == cfg.bufferSize - 1
    && m.mutex.None? && m.emptySem == cfg.bufferSize && m.fullSem == 0
    && !m.inputClosed && m.main == Reading
  }
}
