/** Deadlock freedom, a bound on the work of the offices, and the drain that can always
    be completed. */
module Progress {
  import opened BankTypes
  import opened OfficeMachine
  import opened Histories
  import opened AccountLocks
  import opened HandlerKnowledge
  import opened QueueProtocol
  import opened CoreInvariant

  // ----- deadlock freedom -----

  /** Every office waits for a request and none is on offer; no mutex is held. */
  predicate Resting(m: Machine) {
    && (forall i :: 0 <= i < |m.offices| ==> m.offices[i].pc == WaitFull)
    && m.fullSem == 0
  }

  ghost predicate SomeOfficeSteps(m: Machine, cfg: Config)
    requires Fits(m, cfg)
  {
    exists i :: 0 <= i < cfg.offices && OfficeEnabled(m, i, cfg)
  }

  /** An office that does not wait for a request is enabled, or another one is, or the
      main thread has the queue mutex. */
  lemma BusyOfficeMeansStep(m: Machine, i: nat, cfg: Config)
    requires CoreInv(m, cfg) && i < cfg.offices && m.offices[i].pc != WaitFull
    ensures SomeOfficeSteps(m, cfg) || MainHoldsMutex(m.main)
  {
    var o := m.offices[i];
    assert Knows(m.bank, o, cfg);
    if OfficeEnabled(m, i, cfg) {
    } else if o.pc.LockQueue? {
      if m.mutex.value.Worker? {
        WorkerWithMutex(m);
        assert OfficeEnabled(m, m.mutex.value.office, cfg);
      }
    } else {
      var k := SomeHolderSteps(m, i, cfg);
    }
  }

  lemma RestHoldsNoMutex(m: Machine, cfg: Config)
    requires CoreInv(m, cfg) && Resting(m)
    ensures forall a :: 0 <= a < cfg.accounts ==> m.bank.locks[a].None?
    ensures m.mutex.None? || m.mutex == Some(Main)
    ensures m.emptySem + m.queue.size + (if m.main.LockQueueM? || m.main.PushM? then 1 else 0) == cfg.bufferSize
    ensures m.queue.size == if m.main.UnlockQueueM? || m.main.PostFull? then 1 else 0
  {
    CountIsZero(m.offices, Claimed);
    CountIsZero(m.offices, Unposted);
    forall a | 0 <= a < cfg.accounts
      ensures m.bank.locks[a].None?
    {
      assert m.bank.locks[a].Some? ==> Holds(m.offices[m.bank.locks[a].value], a);
    }
    if m.mutex.Some? && m.mutex.value.Worker? {
      WorkerWithMutex(m);
    }
  }

  /** In every state some office can step; or the main thread, having the queue mutex,
      can; or everything rests and the main thread is not blocked: it can step, reads
      input, or is about to cancel the offices. */
  lemma NoDeadlock(m: Machine, cfg: Config)
    requires CoreInv(m, cfg)
    ensures || SomeOfficeSteps(m, cfg)
            || (MainHoldsMutex(m.main) && MainEnabled(m, NoInput, cfg))
            || (&& Resting(m) && m.mutex.None?
                && (m.main.Reading? || m.main.Cancelling? || MainEnabled(m, NoInput, cfg)))
  {
    if i :| 0 <= i < cfg.offices && m.offices[i].pc != WaitFull {
      BusyOfficeMeansStep(m, i, cfg);
    } else if m.fullSem > 0 {
      assert OfficeEnabled(m, 0, cfg);
    } else {
      RestHoldsNoMutex(m, cfg);
    }
  }

  // ----- how much work is left -----

  /** An upper bound on the steps of an office until it waits for a request again. */
  function Rank(pc: Pc, cfg: Config): nat {
    match pc
    case WaitFull => 0
    case Start => 1
    case ClearActive => 1
    case Replying => 2
    case Counting(next, _) => if next < cfg.offices then 3 + cfg.offices - next else 3
    case Closing => cfg.offices + 4
    case Transferring(t) =>
      (match t
       case TUnlockSecond => 3
       case TUnlockFirst => 4
       case TReply => 5
       case TCredit => 6
       case TDebit => 7
       case THigh => 8
       case TFunds => 9
       case TGet => 10
       case TLockSecond => 11
       case TLockFirst => 12)
    case Creating(c) =>
      (match c
       case CUnlock => 3
       case CReply => 4
       case CMark => 5
       case CWrite => 6
       case CCheck => 7
       case CLock => 8)
    case Querying(b) =>
      (match b
       case BUnlock => 3
       case BRead => 4
       case BLock => 5)
    case Validating(v) =>
      (match v
       case VUnlock(_) => cfg.offices + 13
       case VCheck => cfg.offices + 14
       case VGet => cfg.offices + 15
       case VLock => cfg.offices + 16)
    case PostEmpty => cfg.offices + 17
    case UnlockQueue => cfg.offices + 18
    case Pop => cfg.offices + 19
    case LockQueue => cfg.offices + 20
    case SetActive => cfg.offices + 21
    case Fault => 0
  }

  function StepsPerRequest(cfg: Config): nat {
    cfg.offices + 22
  }

  function RankSum(offices: seq<Office>, cfg: Config): nat {
    if offices == [] then 0
    else RankSum(offices[..|offices| - 1], cfg) + Rank(offices[|offices| - 1].pc, cfg)
  }

  lemma {:induction false} RankSumUpdate(offices: seq<Office>, i: nat, o: Office, cfg: Config)
    requires i < |offices|
    ensures RankSum(offices[i := o], cfg) ==
            RankSum(offices, cfg) - Rank(offices[i].pc, cfg) + Rank(o.pc, cfg)
  {
    var n := |offices| - 1;
    if i == n {
      assert offices[i := o][..n] == offices[..n];
    } else {
      assert offices[i := o][..n] == offices[..n][i := o];
      RankSumUpdate(offices[..n], i, o, cfg);
    }
  }

  /** Pushed requests that no office has claimed yet. */
  function Unclaimed(m: Machine): nat {
    m.fullSem + (if m.main.UnlockQueueM? || m.main.PostFull? then 1 else 0)
  }

  /** The steps that `requests` requests can take. */
  function Cost(requests: nat, cfg: Config): nat {
    requests * StepsPerRequest(cfg)
  }

  lemma CostAdds(a: nat, b: nat, cfg: Config)
    ensures Cost(a + b, cfg) == Cost(a, cfg) + Cost(b, cfg)
    ensures Cost(0, cfg) == 0 && Cost(1, cfg) == StepsPerRequest(cfg)
    ensures a > 0 ==> Cost(a, cfg) > 0
  {
    assert (a + b) * StepsPerRequest(cfg) == a * StepsPerRequest(cfg) + b * StepsPerRequest(cfg);
    assert a > 0 ==> a * StepsPerRequest(cfg) >= 1 * StepsPerRequest(cfg);
  }

  /** The work that is left for the offices. */
  function Work(m: Machine, cfg: Config): nat {
    Cost(Unclaimed(m), cfg) + RankSum(m.offices, cfg)
  }

  lemma BankStepRanks(b: Bank, i: nat, o: Office, salt: Text, cfg: Config)
    requires BankFits(b, cfg) && InRange(o.req, cfg.accounts) && PcMatches(o, cfg) && OnAccounts(o.pc)
    ensures Rank(BankStep(b, i, o, salt, cfg).office.pc, cfg) < Rank(o.pc, cfg)
  {
  }

  lemma LoopStepRanks(m: Machine, i: nat, cfg: Config)
    requires Fits(m, cfg) && OfficeEnabled(m, i, cfg) && InLoop(m.offices[i].pc)
    ensures var m' := LoopStep(m, i, cfg);
            && m'.offices == m.offices[i := m'.offices[i]] && m'.main == m.main
            && (if m.offices[i].pc.WaitFull?
                then m.fullSem == m'.fullSem + 1 && Rank(m'.offices[i].pc, cfg) == StepsPerRequest(cfg) - 1
                else m'.fullSem == m.fullSem && Rank(m'.offices[i].pc, cfg) < Rank(m.offices[i].pc, cfg))
  {
    hide QueueFits;
  }

  lemma ShutdownStepRanks(m: Machine, i: nat, cfg: Config)
    requires Fits(m, cfg) && OfficeEnabled(m, i, cfg)
    requires m.offices[i].pc.Closing? || m.offices[i].pc.Counting?
    ensures var m' := ShutdownStep(m, i, cfg);
            && m'.offices == m.offices[i := m'.offices[i]] && m'.main == m.main && m'.fullSem == m.fullSem
            && Rank(m'.offices[i].pc, cfg) < Rank(m.offices[i].pc, cfg)
  {
    hide QueueFits;
  }

  /** The office's own part of a step: its rank falls, or it claims a request. */
  lemma OfficeStepRanks(m: Machine, i: nat, salt: Text, cfg: Config)
    requires Fits(m, cfg) && OfficeEnabled(m, i, cfg)
    ensures var m' := OfficeApply(m, i, salt, cfg);
            && m'.offices == m.offices[i := m'.offices[i]] && m'.main == m.main
            && (if m.offices[i].pc.WaitFull?
                then m.fullSem == m'.fullSem + 1 && Rank(m'.offices[i].pc, cfg) == StepsPerRequest(cfg) - 1
                else m'.fullSem == m.fullSem && Rank(m'.offices[i].pc, cfg) < Rank(m.offices[i].pc, cfg))
  {
    hide BankStep, QueueFits, Rank, LoopStep, ShutdownStep;
    if InLoop(m.offices[i].pc) {
      LoopStepRanks(m, i, cfg);
    } else if OnAccounts(m.offices[i].pc) {
      BankStepRanks(m.bank, i, m.offices[i], salt, cfg);
    } else {
      ShutdownStepRanks(m, i, cfg);
    }
  }

  /** Every office step uses up work. */
  lemma OfficeStepWorks(m: Machine, i: nat, salt: Text, cfg: Config)
    requires Fits(m, cfg) && OfficeEnabled(m, i, cfg)
    ensures Work(OfficeApply(m, i, salt, cfg), cfg) < Work(m, cfg)
  {
    hide Cost, OfficeApply, QueueFits;
    var m' := OfficeApply(m, i, salt, cfg);
    OfficeStepRanks(m, i, salt, cfg);
    RankSumUpdate(m.offices, i, m'.offices[i], cfg);
    CostAdds(Unclaimed(m'), 1, cfg);
  }

  /** A main-thread step adds the work of one request when it pushes one, else none. */
  lemma MainStepWorks(m: Machine, input: Input, cfg: Config)
    requires Fits(m, cfg) && MainEnabled(m, input, cfg)
    ensures Work(MainApply(m, input, cfg), cfg) ==
            Work(m, cfg) + (if m.main.PushM? then StepsPerRequest(cfg) else 0)
  {
    hide Cost, QueueFits;
    CostAdds(Unclaimed(m), 1, cfg);
  }

  /** No work is left exactly when everything rests and nothing is about to be posted. */
  lemma NoWorkMeansRest(m: Machine, cfg: Config)
    requires CoreInv(m, cfg)
    ensures Work(m, cfg) == 0 <==> Resting(m) && !m.main.UnlockQueueM? && !m.main.PostFull?
  {
    hide Cost, SyncInv, LockInv, TableOk, QueueFits;
    RanksAreZero(m.offices, cfg);
    CostAdds(Unclaimed(m), 0, cfg);
    forall i | 0 <= i < cfg.offices
      ensures Rank(m.offices[i].pc, cfg) == 0 <==> m.offices[i].pc == WaitFull
    {
      assert Knows(m.bank, m.offices[i], cfg);
    }
  }

  lemma {:induction false} RanksAreZero(offices: seq<Office>, cfg: Config)
    ensures RankSum(offices, cfg) == 0 <==> forall i :: 0 <= i < |offices| ==> Rank(offices[i].pc, cfg) == 0
  {
    if offices != [] {
      RanksAreZero(offices[..|offices| - 1], cfg);
    }
  }

  function OfficeSteps(steps: seq<Step>): nat {
    if steps == [] then 0 else (if steps[0].OfficeStep? then 1 else 0) + OfficeSteps(steps[1..])
  }

  /** One step: an office step counts 1, a push counts one request. */
  lemma WorkOfStep(s: State, step: Step, cfg: Config)
    requires StateFits(s, cfg) && Enabled(s.m, step, cfg)
    ensures var s1 := Next(s, step, cfg);
            && |s.h.pushed| <= |s1.h.pushed|
            && (if step.OfficeStep? then 1 else 0) + Work(s1.m, cfg) <=
               Work(s.m, cfg) + Cost(|s1.h.pushed| - |s.h.pushed|, cfg)
  {
    hide Work, Cost, QueueFits, OfficeApply;
    CostAdds(0, 0, cfg);
    match step
    case OfficeStep(i, salt) => OfficeStepWorks(s.m, i, salt, cfg);
    case MainStep(input) => MainStepWorks(s.m, input, cfg);
  }

  /** Over any run: the steps the offices have taken and those they may still take are
      covered by the work there was and the requests pushed meanwhile. */
  lemma {:induction false} RunWorkBound(s: State, steps: seq<Step>, cfg: Config)
    requires StateFits(s, cfg) && ValidRun(s, steps, cfg)
    ensures var f := Final(s, steps, cfg);
            && |s.h.pushed| <= |f.h.pushed|
            && OfficeSteps(steps) + Work(f.m, cfg) <=
               Work(s.m, cfg) + Cost(|f.h.pushed| - |s.h.pushed|, cfg)
    decreases |steps|
  {
    hide Work, Cost, Next, StateFits;
    if steps == [] {
      CostAdds(0, 0, cfg);
    } else {
      var s1 := Next(s, steps[0], cfg);
      RunWorkBound(s1, steps[1..], cfg);
      WorkOfStep(s, steps[0], cfg);
      CostAdds(|Final(s, steps, cfg).h.pushed| - |s1.h.pushed|, |s1.h.pushed| - |s.h.pushed|, cfg);
    }
  }
}
