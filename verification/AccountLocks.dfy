/** The account mutexes: who holds which, what is read and written under them, and
    that an office waiting for one is never waited for in turn. */
module AccountLocks {
  import opened BankTypes
  import opened OfficeMachine

  /** Where `manageRequest` has locked the mutex of account `a` and not yet unlocked it. */
  predicate Holds(o: Office, a: int) {
    match o.pc
    case Validating(v) => !v.VLock? && a == o.req.id
    case Creating(c) => !c.CLock? && o.req.op.CreateAccount? && a == o.req.op.newId
    case Querying(q) => !q.BLock? && a == o.req.id
    case Transferring(t) =>
      && o.req.op.Transfer?
      && (if t.TLockFirst? then false
          else if t.TLockSecond? || t.TUnlockSecond? then a == Min(o.req.id, o.req.op.destId)
          else a == o.req.id || a == o.req.op.destId)
    case _ => false
  }

  /** Office i holds mutex a exactly when its program counter says so. */
  predicate LocksExact(locks: seq<Option<nat>>, offices: seq<Office>) {
    && (forall a, i :: 0 <= a < |locks| && 0 <= i < |offices| ==>
          (locks[a] == Some(i) <==> Holds(offices[i], a)))
    && (forall a :: 0 <= a < |locks| && locks[a].Some? ==> locks[a].value < |offices|)
  }

  predicate LockInv(m: Machine) {
    LocksExact(m.bank.locks, m.offices)
  }

  lemma LockInvInitially(m: Machine, cfg: Config)
    requires InitMachine(m, cfg)
    ensures LockInv(m)
  {
  }

  /** The effect of a step on the mutexes: at most one changes, from free to taken by
      this office or from held by this office to free. */
  predicate LockMove(locks: seq<Option<nat>>, locks': seq<Option<nat>>, i: nat, o: Office, o': Office) {
    && |locks'| == |locks|
    && forall a :: 0 <= a < |locks| ==>
         || (locks'[a] == locks[a] && (Holds(o', a) <==> Holds(o, a)))
         || (locks[a].None? && locks'[a] == Some(i) && Holds(o', a))
         || (Holds(o, a) && locks'[a].None? && !Holds(o', a))
  }

  predicate BankStepReady(b: Bank, i: nat, o: Office, cfg: Config) {
    && BankFits(b, cfg) && InRange(o.req, cfg.accounts) && PcMatches(o, cfg) && OnAccounts(o.pc)
    && (Wanted(o).Some? ==> b.locks[Wanted(o).value].None?)
    && forall a :: 0 <= a < |b.locks| ==> (b.locks[a] == Some(i) <==> Holds(o, a))
  }

  lemma TransferTakesLock(b: Bank, i: nat, o: Office, cfg: Config)
    requires BankStepReady(b, i, o, cfg) && o.pc.Transferring?
    requires o.pc.t.TLockFirst? || o.pc.t.TLockSecond?
    ensures var e := TransferStep(b, i, o, o.pc.t, cfg); LockMove(b.locks, e.bank.locks, i, o, e.office)
  {
  }

  lemma TransferDropsLock(b: Bank, i: nat, o: Office, cfg: Config)
    requires BankStepReady(b, i, o, cfg) && o.pc.Transferring?
    requires o.pc.t.TUnlockFirst? || o.pc.t.TUnlockSecond?
    ensures var e := TransferStep(b, i, o, o.pc.t, cfg); LockMove(b.locks, e.bank.locks, i, o, e.office)
  {
  }

  lemma TransferKeepsLocks(b: Bank, i: nat, o: Office, cfg: Config)
    requires BankStepReady(b, i, o, cfg) && o.pc.Transferring?
    requires !o.pc.t.TLockFirst? && !o.pc.t.TLockSecond? && !o.pc.t.TUnlockFirst? && !o.pc.t.TUnlockSecond?
    requires !TransferStep(b, i, o, o.pc.t, cfg).office.pc.Fault?
    ensures var e := TransferStep(b, i, o, o.pc.t, cfg); LockMove(b.locks, e.bank.locks, i, o, e.office)
  {
  }

  /** The handlers that lock one account. */
  lemma SingleMovesLock(b: Bank, i: nat, o: Office, salt: Text, cfg: Config)
    requires BankStepReady(b, i, o, cfg) && !o.pc.Transferring?
    requires !BankStep(b, i, o, salt, cfg).office.pc.Fault?
    ensures var e := BankStep(b, i, o, salt, cfg); LockMove(b.locks, e.bank.locks, i, o, e.office)
  {
    hide TransferStep;
  }

  lemma BankStepMovesLock(b: Bank, i: nat, o: Office, salt: Text, cfg: Config)
    requires BankStepReady(b, i, o, cfg)
    requires !BankStep(b, i, o, salt, cfg).office.pc.Fault?
    ensures var e := BankStep(b, i, o, salt, cfg); LockMove(b.locks, e.bank.locks, i, o, e.office)
  {
    hide BankStepReady, LockMove, Holds;
    if !o.pc.Transferring? {
      SingleMovesLock(b, i, o, salt, cfg);
    } else if o.pc.t.TLockFirst? || o.pc.t.TLockSecond? {
      TransferTakesLock(b, i, o, cfg);
    } else if o.pc.t.TUnlockFirst? || o.pc.t.TUnlockSecond? {
      TransferDropsLock(b, i, o, cfg);
    } else {
      TransferKeepsLocks(b, i, o, cfg);
    }
  }

  lemma LockMoveKeepsExact(
      locks: seq<Option<nat>>, locks': seq<Option<nat>>, offices: seq<Office>, i: nat, o': Office)
    requires LocksExact(locks, offices) && i < |offices| && LockMove(locks, locks', i, offices[i], o')
    ensures LocksExact(locks', offices[i := o'])
  {
    forall a, j | 0 <= a < |locks'| && 0 <= j < |offices|
      ensures locks'[a] == Some(j) <==> Holds(offices[i := o'][j], a)
    {
      assert locks[a] == Some(i) <==> Holds(offices[i], a);
      assert locks[a] == Some(j) <==> Holds(offices[j], a);
    }
  }

  lemma LockInvOfficeStep(m: Machine, i: nat, salt: Text, cfg: Config)
    requires Fits(m, cfg) && OfficeEnabled(m, i, cfg) && LockInv(m)
    requires !OfficeApply(m, i, salt, cfg).offices[i].pc.Fault?
    ensures LockInv(OfficeApply(m, i, salt, cfg))
  {
    hide BankStep, QueueFits;
    var o, m' := m.offices[i], OfficeApply(m, i, salt, cfg);
    if OnAccounts(o.pc) {
      BankStepMovesLock(m.bank, i, o, salt, cfg);
    }
    LockMoveKeepsExact(m.bank.locks, m'.bank.locks, m.offices, i, m'.offices[i]);
  }

  // ----- exclusion: entries belong to the holder of their mutex -----

  predicate SameEntry(b: Bank, b': Bank, a: int)
    requires 0 <= a < |b.used| == |b'.used| && |b.accounts| == |b'.accounts| == |b.used|
  {
    b'.used[a] == b.used[a] && b'.accounts[a] == b.accounts[a]
  }

  /** A step writes only entries whose mutex its office holds. */
  lemma WritesOnlyHeld(b: Bank, i: nat, o: Office, salt: Text, cfg: Config)
    requires BankFits(b, cfg) && InRange(o.req, cfg.accounts) && PcMatches(o, cfg) && OnAccounts(o.pc)
    ensures BankFits(BankStep(b, i, o, salt, cfg).bank, cfg)
    ensures forall a :: 0 <= a < cfg.accounts && !Holds(o, a) ==>
              SameEntry(b, BankStep(b, i, o, salt, cfg).bank, a)
  {
  }

  /** Two banks that nobody can tell apart through the entries that the office holds. */
  predicate AgreeOnHeld(b: Bank, c: Bank, o: Office, cfg: Config) {
    && BankFits(b, cfg) && BankFits(c, cfg) && b.locks == c.locks
    && forall a :: 0 <= a < cfg.accounts && Holds(o, a) ==> SameEntry(b, c, a)
  }

  predicate SameEffect(e: Effect, f: Effect, o: Office, cfg: Config) {
    && e.office == f.office
    && AgreeOnHeld(e.bank, f.bank, o, cfg)
  }

  lemma TransferReadsOnlyHeld(b: Bank, c: Bank, i: nat, o: Office, cfg: Config)
    requires AgreeOnHeld(b, c, o, cfg)
    requires InRange(o.req, cfg.accounts) && PcMatches(o, cfg) && o.pc.Transferring?
    ensures SameEffect(TransferStep(b, i, o, o.pc.t, cfg), TransferStep(c, i, o, o.pc.t, cfg), o, cfg)
  {
    assert Holds(o, o.req.id) ==> SameEntry(b, c, o.req.id);
    assert Holds(o, o.req.op.destId) ==> SameEntry(b, c, o.req.op.destId);
  }

  /** A step reads only entries whose mutex its office holds: banks that agree on those
      give the same next office, the same writes and the same mutex operation. */
  lemma ReadsOnlyHeld(b: Bank, c: Bank, i: nat, o: Office, salt: Text, cfg: Config)
    requires AgreeOnHeld(b, c, o, cfg)
    requires InRange(o.req, cfg.accounts) && PcMatches(o, cfg) && OnAccounts(o.pc)
    ensures SameEffect(BankStep(b, i, o, salt, cfg), BankStep(c, i, o, salt, cfg), o, cfg)
  {
    if o.pc.Transferring? {
      TransferReadsOnlyHeld(b, c, i, o, cfg);
    } else {
      var a := if o.pc.Creating? then o.req.op.newId else o.req.id;
      assert Holds(o, a) ==> SameEntry(b, c, a);
    }
  }

  // ----- no cyclic waiting -----

  predicate Blocked(m: Machine, i: nat)
    requires i < |m.offices|
  {
    var w := Wanted(m.offices[i]);
    w.Some? && w.value < |m.bank.locks| && m.bank.locks[w.value].Some?
  }

  /** Whoever waits for a mutex holds only smaller ones: waiters climb. */
  lemma WaitersClimb(o: Office, a: nat, cfg: Config)
    requires PcMatches(o, cfg) && OnAccounts(o.pc) && Wanted(o).Some? && Holds(o, a)
    ensures a < Wanted(o).value
  {
  }

  /** Following the holders upward from a blocked office ends at one that can step. */
  lemma {:induction false} SomeHolderSteps(m: Machine, i: nat, cfg: Config) returns (k: nat)
    requires Fits(m, cfg) && LockInv(m) && i < cfg.offices && Blocked(m, i)
    ensures k < cfg.offices && OfficeEnabled(m, k, cfg) && OnAccounts(m.offices[k].pc)
    decreases cfg.accounts - Wanted(m.offices[i]).value
  {
    var a := Wanted(m.offices[i]).value;
    k := m.bank.locks[a].value;
    assert Holds(m.offices[k], a);
    if Blocked(m, k) {
      WaitersClimb(m.offices[k], a, cfg);
      k := SomeHolderSteps(m, k, cfg);
    }
  }
}
