/** The invariant that every step of every thread keeps. */
module CoreInvariant {
  import opened BankTypes
  import opened OfficeMachine
  import opened AccountLocks
  import opened HandlerKnowledge
  import opened QueueProtocol

  predicate CoreInv(m: Machine, cfg: Config) {
    Fits(m, cfg) && SyncInv(m, cfg) && LockInv(m) && KnowledgeInv(m, cfg)
  }

  lemma CoreInitially(m: Machine, cfg: Config)
    requires InitMachine(m, cfg)
    ensures CoreInv(m, cfg)
  {
    SyncInitially(m, cfg);
    LockInvInitially(m, cfg);
    KnowledgeInitially(m, cfg);
  }

  /** What an office step does to the accounts: it writes only held entries and keeps
      every account that exists. */
  predicate GoodOfficeStep(m: Machine, i: nat, m': Machine, cfg: Config)
    requires Fits(m, cfg) && i < cfg.offices
  {
    && Fits(m', cfg)
    && Grows(m.bank, m'.bank) && TableOk(m'.bank)
    && Knows(m'.bank, m'.offices[i], cfg)
    && m'.offices == m.offices[i := m'.offices[i]]
    && forall a :: 0 <= a < cfg.accounts && !Holds(m.offices[i], a) ==> SameEntry(m.bank, m'.bank, a)
  }

  lemma LoopStepIsGood(m: Machine, i: nat, cfg: Config)
    requires CoreInv(m, cfg) && OfficeEnabled(m, i, cfg) && InLoop(m.offices[i].pc)
    requires Fits(LoopStep(m, i, cfg), cfg)
    ensures GoodOfficeStep(m, i, LoopStep(m, i, cfg), cfg)
  {
    if m.offices[i].pc.Pop? {
      PopFindsItem(m, i, cfg);
    }
  }

  lemma AccountStepIsGood(m: Machine, i: nat, salt: Text, cfg: Config)
    requires CoreInv(m, cfg) && OfficeEnabled(m, i, cfg) && OnAccounts(m.offices[i].pc)
    requires Fits(AccountStep(m, i, salt, cfg), cfg)
    ensures GoodOfficeStep(m, i, AccountStep(m, i, salt, cfg), cfg)
  {
    StepLearns(m.bank, i, m.offices[i], salt, cfg);
    WritesOnlyHeld(m.bank, i, m.offices[i], salt, cfg);
  }

  lemma OfficeStepIsGood(m: Machine, i: nat, salt: Text, cfg: Config)
    requires CoreInv(m, cfg) && OfficeEnabled(m, i, cfg)
    ensures GoodOfficeStep(m, i, OfficeApply(m, i, salt, cfg), cfg)
  {
    OfficeApplyFits(m, i, salt, cfg);
    if InLoop(m.offices[i].pc) {
      LoopStepIsGood(m, i, cfg);
    } else if OnAccounts(m.offices[i].pc) {
      AccountStepIsGood(m, i, salt, cfg);
    } else {
      assert Knows(m.bank, m.offices[i], cfg);
    }
  }

  lemma OfficeStepKeepsKnowledge(m: Machine, i: nat, salt: Text, cfg: Config)
    requires CoreInv(m, cfg) && OfficeEnabled(m, i, cfg)
    ensures Fits(OfficeApply(m, i, salt, cfg), cfg) && KnowledgeInv(OfficeApply(m, i, salt, cfg), cfg)
  {
    var m' := OfficeApply(m, i, salt, cfg);
    OfficeStepIsGood(m, i, salt, cfg);
    forall j | 0 <= j < cfg.offices && j != i
      ensures Knows(m'.bank, m'.offices[j], cfg)
    {
      forall a | 0 <= a < cfg.accounts && Holds(m.offices[j], a)
        ensures SameEntry(m.bank, m'.bank, a)
      {
        assert m.bank.locks[a] == Some(j) && m.bank.locks[a] != Some(i);
      }
      KnowledgeIsStable(m.bank, m'.bank, m.offices[j], cfg);
    }
  }

  lemma CoreOfficeStep(m: Machine, i: nat, salt: Text, cfg: Config)
    requires CoreInv(m, cfg) && OfficeEnabled(m, i, cfg)
    ensures LockInv(OfficeApply(m, i, salt, cfg))
    ensures Grows(m.bank, OfficeApply(m, i, salt, cfg).bank)
  {
    OfficeStepIsGood(m, i, salt, cfg);
    LockInvOfficeStep(m, i, salt, cfg);
  }

  lemma CoreStep(m: Machine, step: Step, cfg: Config)
    requires CoreInv(m, cfg) && Enabled(m, step, cfg)
    ensures CoreInv(Apply(m, step, cfg), cfg)
    ensures Grows(m.bank, Apply(m, step, cfg).bank)
  {
    SyncPreserved(m, step, cfg);
    if step.OfficeStep? {
      OfficeStepKeepsKnowledge(m, step.office, step.salt, cfg);
      CoreOfficeStep(m, step.office, step.salt, cfg);
    }
  }
}
