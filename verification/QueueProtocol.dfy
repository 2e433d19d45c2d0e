/** The bounded buffer protocol: semaphores, queue mutex and activity flags. */
module QueueProtocol {
  import opened BankTypes
  import opened OfficeMachine
  import Rings

  /** Past `sem_wait(&queueFullSem)` but not yet popped; popped but not yet past
      `sem_post(&queueEmptySem)`. */
  datatype Stage = Claimed | Unposted

  predicate InStage(pc: Pc, stage: Stage) {
    match stage
    case Claimed => pc.SetActive? || pc.LockQueue? || pc.Pop?
    case Unposted => pc.UnlockQueue? || pc.PostEmpty?
  }

  function Count(offices: seq<Office>, stage: Stage): nat {
    if offices == [] then 0
    else Count(offices[..|offices| - 1], stage) + (if InStage(offices[|offices| - 1].pc, stage) then 1 else 0)
  }

  lemma {:induction false} CountUpdate(offices: seq<Office>, i: nat, o: Office, stage: Stage)
    requires i < |offices|
    ensures Count(offices[i := o], stage) ==
            Count(offices, stage) - (if InStage(offices[i].pc, stage) then 1 else 0)
                                  + (if InStage(o.pc, stage) then 1 else 0)
  {
    var n := |offices| - 1;
    if i == n {
      assert offices[i := o][..n] == offices[..n];
    } else {
      assert offices[i := o][..n] == offices[..n][i := o];
      CountUpdate(offices[..n], i, o, stage);
    }
  }

  lemma {:induction false} CountIsPositive(offices: seq<Office>, i: nat, stage: Stage)
    requires i < |offices| && InStage(offices[i].pc, stage)
    ensures Count(offices, stage) > 0
  {
    if i < |offices| - 1 {
      CountIsPositive(offices[..|offices| - 1], i, stage);
    }
  }

  lemma {:induction false} CountIsZero(offices: seq<Office>, stage: Stage)
    requires forall i :: 0 <= i < |offices| ==> !InStage(offices[i].pc, stage)
    ensures Count(offices, stage) == 0
  {
    if offices != [] {
      CountIsZero(offices[..|offices| - 1], stage);
    }
  }

  /** Slots and items are all accounted for at every instant. */
  predicate SemaphoresBalance(m: Machine, cfg: Config) {
    && cfg.bufferSize == m.emptySem + (if m.main.LockQueueM? || m.main.PushM? then 1 else 0)
                         + m.queue.size + Count(m.offices, Unposted)
    && m.queue.size == m.fullSem + (if m.main.UnlockQueueM? || m.main.PostFull? then 1 else 0)
                       + Count(m.offices, Claimed)
    && |m.queue.cells| == cfg.bufferSize
  }

  predicate MainHoldsMutex(main: MainPc) {
    main.PushM? || main.UnlockQueueM? || main.DrainCheck? || main.DrainUnlock?
  }

  predicate OfficeHoldsMutex(pc: Pc) {
    pc.Pop? || pc.UnlockQueue?
  }

  /** The queue mutex is held by exactly the thread that is between its lock and unlock. */
  predicate MutexExclusive(m: Machine) {
    && (m.mutex == Some(Main) <==> MainHoldsMutex(m.main))
    && (forall i :: 0 <= i < |m.offices| ==>
          (m.mutex == Some(Worker(i)) <==> OfficeHoldsMutex(m.offices[i].pc)))
    && (m.mutex.Some? && m.mutex.value.Worker? ==> m.mutex.value.office < |m.offices|)
  }

  lemma WorkerWithMutex(m: Machine)
    requires MutexExclusive(m) && m.mutex.Some? && m.mutex.value.Worker?
    ensures m.mutex.value.office < |m.offices| && OfficeHoldsMutex(m.offices[m.mutex.value.office].pc)
  {
    assert m.mutex == Some(Worker(m.mutex.value.office));
  }

  predicate Marked(pc: Pc) {
    || pc.LockQueue? || pc.Pop? || InHand(pc) || pc.ClearActive?
  }

  /** An office is flagged active from before its pop until after its reply. */
  predicate FlagsTell(m: Machine) {
    && |m.offices| == |m.active|
    && forall i :: 0 <= i < |m.offices| ==>
      && (Marked(m.offices[i].pc) ==> m.active[i])
      && (m.offices[i].pc.WaitFull? || m.offices[i].pc.SetActive? ==> !m.active[i])
  }

  predicate SyncInv(m: Machine, cfg: Config) {
    SemaphoresBalance(m, cfg) && MutexExclusive(m) && FlagsTell(m)
  }

  lemma SyncInitially(m: Machine, cfg: Config)
    requires InitMachine(m, cfg)
    ensures SyncInv(m, cfg)
  {
    CountIsZero(m.offices, Claimed);
    CountIsZero(m.offices, Unposted);
  }

  /** No pop finds the queue empty, although `queue_pop` does not look. */
  lemma PopFindsItem(m: Machine, i: nat, cfg: Config)
    requires Fits(m, cfg) && SemaphoresBalance(m, cfg) && i < cfg.offices && m.offices[i].pc.Pop?
    ensures m.queue.size > 0
  {
    CountIsPositive(m.offices, i, Claimed);
  }

  /** No push finds the queue full, so the server never grows it. */
  lemma PushFindsRoom(m: Machine, cfg: Config)
    requires Fits(m, cfg) && SemaphoresBalance(m, cfg) && m.main.PushM?
    ensures m.queue.size < |m.queue.cells|
  {
  }

  /** Handling a request leaves the buffer protocol alone. */
  lemma HandlingFrame(m: Machine, i: nat, salt: Text, cfg: Config)
    requires Fits(m, cfg) && OfficeEnabled(m, i, cfg) && !InLoop(m.offices[i].pc)
    ensures var m' := OfficeApply(m, i, salt, cfg);
            && m'.offices == m.offices[i := m'.offices[i]]
            && m' == m.(offices := m'.offices, bank := m'.bank, inputClosed := m'.inputClosed)
            && (Handling(m'.offices[i].pc) || m'.offices[i].pc.Fault?)
            && m'.offices[i].req == m.offices[i].req
  {
    if OnAccounts(m.offices[i].pc) {
      BankStepFits(m.bank, i, m.offices[i], salt, cfg);
    }
  }

  lemma LoopKeepsSemaphores(m: Machine, i: nat, cfg: Config)
    requires Fits(m, cfg) && OfficeEnabled(m, i, cfg) && InLoop(m.offices[i].pc) && SyncInv(m, cfg)
    ensures SemaphoresBalance(LoopStep(m, i, cfg), cfg)
  {
    hide QueueFits, Rings.Contents, MutexExclusive, FlagsTell;
    var o' := LoopStep(m, i, cfg).offices[i];
    CountUpdate(m.offices, i, o', Claimed);
    CountUpdate(m.offices, i, o', Unposted);
    if m.offices[i].pc.Pop? {
      PopFindsItem(m, i, cfg);
    }
  }

  lemma LoopKeepsMutex(m: Machine, i: nat, cfg: Config)
    requires Fits(m, cfg) && OfficeEnabled(m, i, cfg) && InLoop(m.offices[i].pc) && SyncInv(m, cfg)
    ensures MutexExclusive(LoopStep(m, i, cfg))
  {
    if m.offices[i].pc.Pop? {
      PopFindsItem(m, i, cfg);
    }
  }

  lemma LoopKeepsFlags(m: Machine, i: nat, cfg: Config)
    requires Fits(m, cfg) && OfficeEnabled(m, i, cfg) && InLoop(m.offices[i].pc) && FlagsTell(m)
    ensures FlagsTell(LoopStep(m, i, cfg))
  {
  }

  lemma HandlingKeepsSync(m: Machine, i: nat, salt: Text, cfg: Config)
    requires Fits(m, cfg) && OfficeEnabled(m, i, cfg) && !InLoop(m.offices[i].pc) && SyncInv(m, cfg)
    ensures SyncInv(OfficeApply(m, i, salt, cfg), cfg)
  {
    var m' := OfficeApply(m, i, salt, cfg);
    HandlingFrame(m, i, salt, cfg);
    CountUpdate(m.offices, i, m'.offices[i], Claimed);
    CountUpdate(m.offices, i, m'.offices[i], Unposted);
  }

  lemma MainKeepsSemaphores(m: Machine, input: Input, cfg: Config)
    requires Fits(m, cfg) && MainEnabled(m, input, cfg) && SemaphoresBalance(m, cfg)
    ensures SemaphoresBalance(MainApply(m, input, cfg), cfg)
  {
    if m.main.PushM? {
      PushFindsRoom(m, cfg);
    }
  }

  lemma MainKeepsMutex(m: Machine, input: Input, cfg: Config)
    requires Fits(m, cfg) && MainEnabled(m, input, cfg) && MutexExclusive(m)
    ensures MutexExclusive(MainApply(m, input, cfg))
  {
  }

  lemma SyncPreserved(m: Machine, step: Step, cfg: Config)
    requires Fits(m, cfg) && Enabled(m, step, cfg) && SyncInv(m, cfg)
    ensures SyncInv(Apply(m, step, cfg), cfg)
  {
    match step
    case OfficeStep(i, salt) =>
      if InLoop(m.offices[i].pc) {
        LoopKeepsSemaphores(m, i, cfg);
        LoopKeepsMutex(m, i, cfg);
        LoopKeepsFlags(m, i, cfg);
      } else {
        HandlingKeepsSync(m, i, salt, cfg);
      }
    case MainStep(input) =>
      MainKeepsSemaphores(m, input, cfg);
      MainKeepsMutex(m, input, cfg);
  }
}
