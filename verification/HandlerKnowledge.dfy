/** What an office may rely on at each point of `manageRequest`, whatever the others do:
    a passed login stays valid after its mutex is released, and what was read under a
    mutex stays true until that mutex is released. */
module HandlerKnowledge {
  import opened BankTypes
  import opened OfficeMachine
  import opened AccountLocks

  /** The administrator exists and every account's stored id is its index. */
  predicate TableOk(b: Bank) {
    && 0 < |b.used| == |b.accounts|
    && b.used[ADMIN]
    && forall a :: 0 <= a < |b.used| && b.used[a] ==> b.accounts[a].id == a
  }

  /** Accounts are never removed or overwritten: only balances of used ones change. */
  predicate Grows(b: Bank, b': Bank) {
    && |b.used| == |b.accounts| == |b'.used| == |b'.accounts|
    && forall a :: 0 <= a < |b.used| && b.used[a] ==>
         b'.used[a] && b'.accounts[a] == b.accounts[a].(balance := b'.accounts[a].balance)
  }

  predicate LoggedIn(b: Bank, req: Request, cfg: Config) {
    && req.id < |b.used| == |b.accounts|
    && b.used[req.id]
    && cfg.hash(req.password, b.accounts[req.id].salt) == b.accounts[req.id].hash
  }

  /** Both ends exist, differ and are clients. */
  predicate EndsOk(b: Bank, req: Request) {
    && req.op.Transfer? && req.id < |b.used| && req.op.destId < |b.used| == |b.accounts|
    && b.used[req.op.destId]
    && req.id != ADMIN && req.op.destId != ADMIN && req.id != req.op.destId
  }

  predicate KnowsTransfer(b: Bank, req: Request, t: TransferPc)
    requires req.op.Transfer? && req.id < |b.used| == |b.accounts| && req.op.destId < |b.used|
  {
    var balance, destBalance, amount :=
      b.accounts[req.id].balance, b.accounts[req.op.destId].balance, req.op.amount;
    && (t.TFunds? || t.THigh? || t.TDebit? || t.TCredit? || t.TReply? ==> EndsOk(b, req))
    && (t.THigh? || t.TDebit? ==> amount <= balance)
    && (t.TDebit? || t.TCredit? ==> Add32(destBalance, amount) <= MAX_BALANCE)
    && (t.TCredit? ==> amount <= Add32(balance, amount))
  }

  predicate KnowsCreate(b: Bank, o: Office, c: CreatePc, cfg: Config)
    requires o.req.op.CreateAccount? && o.req.op.newId < |b.used| == |b.accounts|
  {
    var newId := o.req.op.newId;
    && (c.CWrite? || c.CMark? || c.CReply? ==> o.req.id == ADMIN)
    && (c.CWrite? || c.CMark? ==> !b.used[newId])
    && (c.CMark? ==> b.accounts[newId] == NewAccount(o.req, o.salt, cfg))
  }

  predicate Knows(b: Bank, o: Office, cfg: Config)
    requires BankFits(b, cfg) && OfficeFits(o, cfg)
  {
    match o.pc
    case Validating(v) =>
      && (v.VCheck? ==> b.used[o.req.id])
      && (v == VUnlock(true) ==> LoggedIn(b, o.req, cfg))
    case Creating(c) => LoggedIn(b, o.req, cfg) && KnowsCreate(b, o, c, cfg)
    case Querying(_) => LoggedIn(b, o.req, cfg)
    case Transferring(t) => LoggedIn(b, o.req, cfg) && KnowsTransfer(b, o.req, t)
    case Closing => LoggedIn(b, o.req, cfg)
    case Counting(_, _) => LoggedIn(b, o.req, cfg) && o.req.id == ADMIN
    case Fault => false
    case _ => true
  }

  predicate KnowledgeInv(m: Machine, cfg: Config)
    requires Fits(m, cfg)
  {
    && TableOk(m.bank)
    && forall i :: 0 <= i < cfg.offices ==> Knows(m.bank, m.offices[i], cfg)
  }

  lemma KnowledgeInitially(m: Machine, cfg: Config)
    requires InitMachine(m, cfg)
    ensures KnowledgeInv(m, cfg)
  {
  }

  /** A passed login stays passed for ever. */
  lemma LoginStays(b: Bank, b': Bank, req: Request, cfg: Config)
    requires LoggedIn(b, req, cfg) && Grows(b, b')
    ensures LoggedIn(b', req, cfg)
  {
  }

  /** Another office's step disturbs nothing that this office relies on. */
  lemma KnowledgeIsStable(b: Bank, b': Bank, o: Office, cfg: Config)
    requires BankFits(b, cfg) && BankFits(b', cfg) && OfficeFits(o, cfg)
    requires Knows(b, o, cfg) && Grows(b, b')
    requires forall a :: 0 <= a < cfg.accounts && Holds(o, a) ==> SameEntry(b, b', a)
    ensures Knows(b', o, cfg)
  {
    match o.pc
    case Transferring(t) =>
      assert Holds(o, o.req.id) ==> SameEntry(b, b', o.req.id);
      assert Holds(o, o.req.op.destId) ==> SameEntry(b, b', o.req.op.destId);
    case Creating(c) =>
      assert Holds(o, o.req.op.newId) ==> SameEntry(b, b', o.req.op.newId);
    case _ =>
  }

  /** The step ended well and the office knows what its next one needs. */
  predicate Learned(b: Bank, e: Effect, cfg: Config) {
    && BankFits(e.bank, cfg) && OfficeFits(e.office, cfg) && !e.office.pc.Fault?
    && Knows(e.bank, e.office, cfg) && TableOk(e.bank) && Grows(b, e.bank)
  }

  lemma TransferWriteLearns(b: Bank, i: nat, o: Office, cfg: Config)
    requires BankFits(b, cfg) && OfficeFits(o, cfg) && o.pc.Transferring?
    requires o.pc.t.TDebit? || o.pc.t.TCredit?
    requires TableOk(b) && Knows(b, o, cfg)
    ensures Learned(b, TransferStep(b, i, o, o.pc.t, cfg), cfg)
  {
  }

  lemma TransferReadLearns(b: Bank, i: nat, o: Office, cfg: Config)
    requires BankFits(b, cfg) && OfficeFits(o, cfg) && o.pc.Transferring?
    requires !o.pc.t.TDebit? && !o.pc.t.TCredit?
    requires TableOk(b) && Knows(b, o, cfg)
    ensures Learned(b, TransferStep(b, i, o, o.pc.t, cfg), cfg)
  {
    var e := TransferStep(b, i, o, o.pc.t, cfg);
    assert e.bank.used == b.used && e.bank.accounts == b.accounts;
  }

  lemma CreateLearns(b: Bank, i: nat, o: Office, salt: Text, cfg: Config)
    requires BankFits(b, cfg) && OfficeFits(o, cfg) && o.pc.Creating?
    requires TableOk(b) && Knows(b, o, cfg)
    ensures Learned(b, CreateStep(b, i, o, o.pc.c, salt, cfg), cfg)
  {
  }

  /** An office's own step establishes what it relies on next; no account pointer it
      dereferences is NULL. */
  lemma StepLearns(b: Bank, i: nat, o: Office, salt: Text, cfg: Config)
    requires BankFits(b, cfg) && OfficeFits(o, cfg) && OnAccounts(o.pc)
    requires TableOk(b) && Knows(b, o, cfg)
    ensures Learned(b, BankStep(b, i, o, salt, cfg), cfg)
  {
    if o.pc.Transferring? {
      hide Learned, Knows, TableOk;
      if o.pc.t.TDebit? || o.pc.t.TCredit? {
        TransferWriteLearns(b, i, o, cfg);
      } else {
        TransferReadLearns(b, i, o, cfg);
      }
    } else if o.pc.Creating? {
      hide Learned, Knows, TableOk;
      CreateLearns(b, i, o, salt, cfg);
    }
  }
}
