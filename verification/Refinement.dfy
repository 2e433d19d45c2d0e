/** Every office step either leaves the abstract ledger alone or is exactly one request
    of the atomic bank. */
module Refinement {
  import opened BankTypes
  import opened OfficeMachine
  import opened Histories
  import opened AccountLocks
  import opened HandlerKnowledge
  import opened CoreInvariant
  import opened AtomicBank

  /** What an office between debit and credit has taken from account `a`. */
  function InFlight(o: Office, a: int): uint32 {
    if o.pc == Transferring(TCredit) && o.req.op.Transfer? && o.req.id == a then o.req.op.amount else 0
  }

  /** Entry `a` while `o` holds its mutex: a debit still to be credited is undone. */
  function EntryHeldBy(b: Bank, o: Office, a: int): Option<Account>
    requires 0 <= a < |b.used| == |b.accounts|
  {
    if b.used[a]
    then Some(b.accounts[a].(balance := Add32(b.accounts[a].balance, InFlight(o, a))))
    else None
  }

  /** Entry `a` of the abstract ledger. */
  function AbstractEntry(b: Bank, offices: seq<Office>, a: int): Option<Account>
    requires 0 <= a < |b.used| == |b.accounts| == |b.locks|
  {
    if b.locks[a].Some? && b.locks[a].value < |offices|
    then EntryHeldBy(b, offices[b.locks[a].value], a)
    else if b.used[a] then Some(b.accounts[a]) else None
  }

  /** The ledger that the atomic bank has in this state of the machine. */
  function Abstract(m: Machine, cfg: Config): (l: Ledger)
    requires Fits(m, cfg)
    ensures |l| == cfg.accounts
  {
    seq(cfg.accounts, a requires 0 <= a < cfg.accounts => AbstractEntry(m.bank, m.offices, a))
  }

  /** The ledger as memory holds it. */
  function Concrete(m: Machine, cfg: Config): (l: Ledger)
    requires Fits(m, cfg)
    ensures |l| == cfg.accounts
  {
    seq(cfg.accounts, a requires 0 <= a < cfg.accounts =>
      if m.bank.used[a] then Some(m.bank.accounts[a]) else None)
  }

  /** The ledgers differ in balances only. */
  predicate Mirrors(l: Ledger, b: Bank) {
    && |l| == |b.used| == |b.accounts|
    && forall a :: 0 <= a < |l| ==>
         (if b.used[a] then l[a].Some? && l[a].value == b.accounts[a].(balance := l[a].value.balance)
          else l[a].None?)
  }

  lemma AbstractMirrors(m: Machine, cfg: Config)
    requires Fits(m, cfg)
    ensures Mirrors(Abstract(m, cfg), m.bank)
  {
  }

  // ----- one step seen through the entries that the office holds -----

  /** `l` and `l'` are the abstract ledgers around the step of `o` to `e`. */
  predicate Brackets(l: Ledger, l': Ledger, b: Bank, o: Office, e: Effect, cfg: Config) {
    && BankFits(b, cfg) && BankFits(e.bank, cfg)
    && Mirrors(l, b) && |l'| == |l|
    && forall a :: 0 <= a < |l| ==>
         if Holds(o, a) then l[a] == EntryHeldBy(b, o, a) && l'[a] == EntryHeldBy(e.bank, e.office, a)
         else l'[a] == l[a]
  }

  /** The step is the whole request of the atomic bank with its reply, or it is nothing
      at all and keeps what was decided. */
  predicate Simulates(l: Ledger, l': Ledger, b: Bank, o: Office, e: Effect, cfg: Config)
    requires InRange(o.req, |l|) && o.req.id < |b.accounts| && o.req.id < |e.bank.accounts|
    requires e.office.req == o.req
  {
    if CommitsTo(o, e.office) then
      var reply := Decision(e.bank, e.office);
      Exec(cfg.hash, l, o.req, e.office.salt, ActiveCount(reply)) == Outcome(l', reply)
    else
      && l' == l
      && (Committed(o.pc) <==> Committed(e.office.pc))
      && (Committed(o.pc) ==> Decision(b, o) == Decision(e.bank, e.office))
  }

  predicate Simulable(l: Ledger, l': Ledger, b: Bank, o: Office, e: Effect, cfg: Config) {
    && Brackets(l, l', b, o, e, cfg)
    && OfficeFits(o, cfg) && OnAccounts(o.pc) && TableOk(b) && Knows(b, o, cfg)
  }

  lemma ValidateSimulates(l: Ledger, l': Ledger, b: Bank, i: nat, o: Office, cfg: Config)
    requires BankFits(b, cfg) && OfficeFits(o, cfg) && o.pc.Validating?
    requires Simulable(l, l', b, o, ValidateStep(b, i, o, o.pc.v, cfg), cfg)
    ensures Simulates(l, l', b, o, ValidateStep(b, i, o, o.pc.v, cfg), cfg)
  {
  }

  lemma CreateSimulates(l: Ledger, l': Ledger, b: Bank, i: nat, o: Office, salt: Text, cfg: Config)
    requires BankFits(b, cfg) && OfficeFits(o, cfg) && o.pc.Creating?
    requires Simulable(l, l', b, o, CreateStep(b, i, o, o.pc.c, salt, cfg), cfg)
    ensures Simulates(l, l', b, o, CreateStep(b, i, o, o.pc.c, salt, cfg), cfg)
  {
  }

  lemma BalanceSimulates(l: Ledger, l': Ledger, b: Bank, i: nat, o: Office, cfg: Config)
    requires BankFits(b, cfg) && OfficeFits(o, cfg) && o.pc.Querying?
    requires Simulable(l, l', b, o, BalanceStep(b, i, o, o.pc.b, cfg), cfg)
    ensures Simulates(l, l', b, o, BalanceStep(b, i, o, o.pc.b, cfg), cfg)
  {
  }

  lemma CreditSimulates(l: Ledger, l': Ledger, b: Bank, i: nat, o: Office, cfg: Config)
    requires BankFits(b, cfg) && OfficeFits(o, cfg) && o.pc == Transferring(TCredit)
    requires Simulable(l, l', b, o, TransferStep(b, i, o, o.pc.t, cfg), cfg)
    ensures Simulates(l, l', b, o, TransferStep(b, i, o, o.pc.t, cfg), cfg)
  {
    var id, dest, amount := o.req.id, o.req.op.destId, o.req.op.amount;
    assert l[id] == EntryHeldBy(b, o, id) && l[dest] == EntryHeldBy(b, o, dest);
    assert l' == Credited(Debited(l, id, amount), dest, amount);
  }

  lemma CheckSimulates(l: Ledger, l': Ledger, b: Bank, i: nat, o: Office, cfg: Config)
    requires BankFits(b, cfg) && OfficeFits(o, cfg) && o.pc.Transferring?
    requires o.pc.t.TGet? || o.pc.t.TFunds? || o.pc.t.THigh?
    requires Simulable(l, l', b, o, TransferStep(b, i, o, o.pc.t, cfg), cfg)
    ensures Simulates(l, l', b, o, TransferStep(b, i, o, o.pc.t, cfg), cfg)
  {
    assert l' == l;
    assert l[o.req.id] == EntryHeldBy(b, o, o.req.id);
    assert l[o.req.op.destId] == EntryHeldBy(b, o, o.req.op.destId);
  }

  /** Locking, debiting, building the reply and unlocking are invisible. */
  lemma SilentTransferStep(l: Ledger, l': Ledger, b: Bank, i: nat, o: Office, cfg: Config)
    requires BankFits(b, cfg) && OfficeFits(o, cfg) && o.pc.Transferring?
    requires !o.pc.t.TGet? && !o.pc.t.TFunds? && !o.pc.t.THigh? && !o.pc.t.TCredit?
    requires Simulable(l, l', b, o, TransferStep(b, i, o, o.pc.t, cfg), cfg)
    ensures Simulates(l, l', b, o, TransferStep(b, i, o, o.pc.t, cfg), cfg)
  {
    var e := TransferStep(b, i, o, o.pc.t, cfg);
    forall a | 0 <= a < |l|
      ensures l'[a] == l[a]
    {
      assert Holds(o, a) ==> EntryHeldBy(b, o, a) == EntryHeldBy(e.bank, e.office, a);
    }
    assert l' == l;
  }

  lemma BankStepSimulates(l: Ledger, l': Ledger, b: Bank, i: nat, o: Office, salt: Text, cfg: Config)
    requires BankFits(b, cfg) && OfficeFits(o, cfg) && OnAccounts(o.pc)
    requires BankStep(b, i, o, salt, cfg).office.req == o.req
    requires Simulable(l, l', b, o, BankStep(b, i, o, salt, cfg), cfg)
    ensures Simulates(l, l', b, o, BankStep(b, i, o, salt, cfg), cfg)
  {
    match o.pc
    case Validating(_) => ValidateSimulates(l, l', b, i, o, cfg);
    case Creating(_) => CreateSimulates(l, l', b, i, o, salt, cfg);
    case Querying(_) => BalanceSimulates(l, l', b, i, o, cfg);
    case Transferring(t) =>
      if t.TCredit? {
        CreditSimulates(l, l', b, i, o, cfg);
      } else if t.TGet? || t.TFunds? || t.THigh? {
        CheckSimulates(l, l', b, i, o, cfg);
      } else {
        SilentTransferStep(l, l', b, i, o, cfg);
      }
  }

  // ----- the same for the whole machine -----

  /** Money is in flight only after the debit, with the mutex still held. */
  lemma FlightUnderLock(b: Bank, i: nat, o: Office, salt: Text, a: int, cfg: Config)
    requires BankFits(b, cfg) && InRange(o.req, cfg.accounts) && PcMatches(o, cfg) && OnAccounts(o.pc)
    ensures var e := BankStep(b, i, o, salt, cfg);
            InFlight(e.office, a) > 0 ==> Holds(o, a) && e.bank.locks == b.locks
  {
  }

  /** An entry that the stepping office does not hold keeps its abstract value. */
  lemma OthersKeepEntry(b: Bank, b': Bank, offices: seq<Office>, i: nat, o': Office, a: int)
    requires 0 <= a < |b.used| == |b.accounts| == |b.locks| && i < |offices|
    requires |b.used| == |b'.used| == |b'.accounts|
    requires LocksExact(b.locks, offices) && LockMove(b.locks, b'.locks, i, offices[i], o')
    requires !Holds(offices[i], a) && SameEntry(b, b', a) && InFlight(o', a) == 0
    ensures AbstractEntry(b', offices[i := o'], a) == AbstractEntry(b, offices, a)
  {
    assert b.locks[a] == Some(i) <==> Holds(offices[i], a);
  }

  /** An entry that the stepping office holds shows that office's own view. */
  lemma HolderSeesEntry(b: Bank, b': Bank, offices: seq<Office>, i: nat, o': Office, a: int)
    requires 0 <= a < |b.used| == |b.accounts| == |b.locks| && i < |offices|
    requires |b.used| == |b'.used| == |b'.accounts|
    requires LocksExact(b.locks, offices) && LockMove(b.locks, b'.locks, i, offices[i], o')
    requires Holds(offices[i], a) && (InFlight(o', a) > 0 ==> b'.locks == b.locks)
    ensures AbstractEntry(b, offices, a) == EntryHeldBy(b, offices[i], a)
    ensures AbstractEntry(b', offices[i := o'], a) == EntryHeldBy(b', o', a)
  {
    assert b.locks[a] == Some(i) <==> Holds(offices[i], a);
  }

  lemma AbstractLedgersBracket(m: Machine, i: nat, salt: Text, cfg: Config)
    requires CoreInv(m, cfg) && OfficeEnabled(m, i, cfg) && OnAccounts(m.offices[i].pc)
    requires Fits(AccountStep(m, i, salt, cfg), cfg)
    ensures Brackets(Abstract(m, cfg), Abstract(AccountStep(m, i, salt, cfg), cfg), m.bank, m.offices[i],
                     BankStep(m.bank, i, m.offices[i], salt, cfg), cfg)
  {
    var o, e := m.offices[i], BankStep(m.bank, i, m.offices[i], salt, cfg);
    AccountStepIsGood(m, i, salt, cfg);
    BankStepMovesLock(m.bank, i, o, salt, cfg);
    var l, l' := Abstract(m, cfg), Abstract(AccountStep(m, i, salt, cfg), cfg);
    AbstractMirrors(m, cfg);
    forall a | 0 <= a < cfg.accounts
      ensures if Holds(o, a) then l[a] == EntryHeldBy(m.bank, o, a) && l'[a] == EntryHeldBy(e.bank, e.office, a)
              else l'[a] == l[a]
    {
      FlightUnderLock(m.bank, i, o, salt, a, cfg);
      if Holds(o, a) {
        HolderSeesEntry(m.bank, e.bank, m.offices, i, e.office, a);
      } else {
        OthersKeepEntry(m.bank, e.bank, m.offices, i, e.office, a);
      }
    }
  }

  lemma AccountStepRefines(m: Machine, i: nat, salt: Text, cfg: Config)
    requires CoreInv(m, cfg) && OfficeEnabled(m, i, cfg) && OnAccounts(m.offices[i].pc)
    ensures var m' := AccountStep(m, i, salt, cfg);
            && Fits(m', cfg) && m'.offices[i].req == m.offices[i].req
            && Simulates(Abstract(m, cfg), Abstract(m', cfg), m.bank, m.offices[i],
                         Effect(m'.bank, m'.offices[i]), cfg)
  {
    var o, m' := m.offices[i], AccountStep(m, i, salt, cfg);
    OfficeApplyFits(m, i, salt, cfg);
    BankStepFits(m.bank, i, o, salt, cfg);
    AbstractLedgersBracket(m, i, salt, cfg);
    assert Knows(m.bank, o, cfg);
    BankStepSimulates(Abstract(m, cfg), Abstract(m', cfg), m.bank, i, o, salt, cfg);
  }

  lemma LoopStepFrame(m: Machine, i: nat, cfg: Config)
    requires Fits(m, cfg) && OfficeEnabled(m, i, cfg) && InLoop(m.offices[i].pc)
    ensures var m' := LoopStep(m, i, cfg);
            && m'.bank == m.bank && m'.offices == m.offices[i := m'.offices[i]]
            && !m'.offices[i].pc.Transferring?
  {
    hide QueueFits;
  }

  lemma ShutdownStepFrame(m: Machine, i: nat, cfg: Config)
    requires Fits(m, cfg) && OfficeEnabled(m, i, cfg)
    requires m.offices[i].pc.Closing? || m.offices[i].pc.Counting?
    ensures var m' := ShutdownStep(m, i, cfg);
            && m'.bank == m.bank && m'.offices == m.offices[i := m'.offices[i]]
            && !m'.offices[i].pc.Transferring?
  {
    hide QueueFits;
  }

  /** An office that is on no account before or after its step has nothing in flight. */
  lemma SameFlights(b: Bank, offices: seq<Office>, i: nat, o': Office, a: int)
    requires 0 <= a < |b.used| == |b.accounts| == |b.locks| && i < |offices|
    requires !offices[i].pc.Transferring? && !o'.pc.Transferring?
    ensures AbstractEntry(b, offices[i := o'], a) == AbstractEntry(b, offices, a)
  {
  }

  /** No other step changes the abstract ledger. */
  lemma OtherStepsKeepAbstract(m: Machine, step: Step, cfg: Config)
    requires Fits(m, cfg) && Enabled(m, step, cfg)
    requires step.OfficeStep? ==> !OnAccounts(m.offices[step.office].pc)
    ensures Abstract(Apply(m, step, cfg), cfg) == Abstract(m, cfg)
    ensures Apply(m, step, cfg).bank == m.bank
  {
    hide BankStep, LoopStep, ShutdownStep, QueueFits, AbstractEntry;
    var m' := Apply(m, step, cfg);
    match step
    case MainStep(_) => assert m'.bank == m.bank && m'.offices == m.offices;
    case OfficeStep(i, _) =>
      if InLoop(m.offices[i].pc) {
        LoopStepFrame(m, i, cfg);
      } else {
        ShutdownStepFrame(m, i, cfg);
      }
      forall a | 0 <= a < cfg.accounts
        ensures AbstractEntry(m'.bank, m'.offices, a) == AbstractEntry(m.bank, m.offices, a)
      {
        SameFlights(m.bank, m.offices, i, m'.offices[i], a);
      }
  }

  lemma ShutdownRefines(m: Machine, i: nat, cfg: Config)
    requires CoreInv(m, cfg) && OfficeEnabled(m, i, cfg)
    requires m.offices[i].pc.Closing? || m.offices[i].pc.Counting?
    requires Fits(ShutdownStep(m, i, cfg), cfg)
    ensures var m' := ShutdownStep(m, i, cfg);
            && m'.offices[i].req == m.offices[i].req
            && Simulates(Abstract(m, cfg), Abstract(m', cfg), m.bank, m.offices[i],
                         Effect(m'.bank, m'.offices[i]), cfg)
  {
    OtherStepsKeepAbstract(m, OfficeStep(i, []), cfg);
    assert Knows(m.bank, m.offices[i], cfg);
    AbstractMirrors(m, cfg);
  }
}
