/** Shutdown: offices are cancelled only when every request has been answered. */
module Drain {
  import opened BankTypes
  import opened OfficeMachine
  import opened Histories
  import opened AccountLocks
  import opened HandlerKnowledge
  import opened QueueProtocol
  import opened CoreInvariant
  import opened Delivery
  import opened Progress
  import opened Intake
  import Rings

  predicate AtRest(pc: Pc) {
    pc.Start? || pc.WaitFull?
  }

  /** The main thread has seen the queue empty and no longer adds to it. */
  predicate SawEmpty(main: MainPc) {
    main == DrainUnlock(true) || main.Scanning? || main.Cancelling?
  }

  /** How far the scan has established that offices are at rest. */
  function Cleared(main: MainPc, cfg: Config): nat {
    if main.Cancelling? then cfg.offices
    else if main.Scanning? && main.sum == 0 then main.next
    else 0
  }

  predicate DrainInv(m: Machine, cfg: Config) {
    && (SawEmpty(m.main) ==> m.queue.size == 0)
    && forall i :: 0 <= i < |m.offices| && i < Cleared(m.main, cfg) ==> AtRest(m.offices[i].pc)
  }

  /** With an empty queue and no producer nobody is on the way to a pop. */
  lemma NobodyClaims(m: Machine, i: nat, cfg: Config)
    requires CoreInv(m, cfg) && DrainInv(m, cfg) && SawEmpty(m.main) && i < cfg.offices
    ensures m.fullSem == 0 && !InStage(m.offices[i].pc, Claimed)
  {
    if InStage(m.offices[i].pc, Claimed) {
      CountIsPositive(m.offices, i, Claimed);
    }
  }

  /** So a cleared office stays at rest: its flag cannot be raised again behind the scan. */
  lemma OfficeKeepsDrain(m: Machine, i: nat, salt: Text, cfg: Config)
    requires CoreInv(m, cfg) && DrainInv(m, cfg) && OfficeEnabled(m, i, cfg)
    ensures DrainInv(OfficeApply(m, i, salt, cfg), cfg)
  {
    if SawEmpty(m.main) {
      NobodyClaims(m, i, cfg);
    }
    if !InLoop(m.offices[i].pc) {
      HandlingFrame(m, i, salt, cfg);
    }
  }

  lemma MainKeepsDrain(m: Machine, input: Input, cfg: Config)
    requires CoreInv(m, cfg) && DrainInv(m, cfg) && MainEnabled(m, input, cfg)
    ensures DrainInv(MainApply(m, input, cfg), cfg)
  {
    if m.main.Scanning? && m.main.next < cfg.offices {
      var k := m.main.next;
      NobodyClaims(m, k, cfg);
      assert Knows(m.bank, m.offices[k], cfg);
    }
  }

  lemma DrainStep(m: Machine, step: Step, cfg: Config)
    requires CoreInv(m, cfg) && DrainInv(m, cfg) && Enabled(m, step, cfg)
    ensures DrainInv(Apply(m, step, cfg), cfg)
  {
    hide CoreInv, DrainInv;
    match step
    case OfficeStep(i, salt) => OfficeKeepsDrain(m, i, salt, cfg);
    case MainStep(input) => MainKeepsDrain(m, input, cfg);
  }

  /** When the first cancel comes next, every request ever pushed was popped and has
      been replied to, and no office is in the middle of anything. */
  lemma AllAnswered(s: State, cfg: Config)
    requires StateFits(s, cfg) && CoreInv(s.m, cfg) && DrainInv(s.m, cfg) && DeliveryInv(s, cfg)
    requires s.m.main.Cancelling?
    ensures s.h.popped == s.h.pushed
    ensures forall t :: t in s.h.replies <==> 0 <= t < |s.h.pushed|
    ensures forall i :: 0 <= i < cfg.offices ==> AtRest(s.m.offices[i].pc)
  {
    assert Rings.Contents(s.m.queue) == [];
    assert forall i, t: nat :: !Carries(s.m, s.h, i, t);
  }

  // ----- the drain can always be completed -----

  predicate Draining(main: MainPc) {
    main.DrainLock? || main.DrainCheck? || main.DrainUnlock? || main.Scanning? || main.Cancelling?
  }

  /** The input has ended, or ends as soon as the main thread reads again. */
  predicate Stopping(m: Machine) {
    Draining(m.main) || m.inputClosed
  }

  /** The work that is left for the offices, with a request that is still to be pushed. */
  function WorkAhead(m: Machine, cfg: Config): nat {
    Work(m, cfg) + (if m.main.WaitEmpty? || m.main.LockQueueM? || m.main.PushM? then StepsPerRequest(cfg) else 0)
  }

  /** Bounds the main thread's own steps while no office can step. */
  ghost function MainRank(m: Machine, cfg: Config): nat
    requires Fits(m, cfg)
  {
    if Resting(m) then
      match m.main
      case WaitEmpty(_) => cfg.offices + 12
      case LockQueueM(_) => cfg.offices + 11
      case PushM(_) => cfg.offices + 10
      case UnlockQueueM => cfg.offices + 9
      case PostFull => cfg.offices + 8
      case Reading => cfg.offices + 7
      case DrainUnlock(empty) => if empty then cfg.offices + 3 else cfg.offices + 6
      case DrainLock => cfg.offices + 5
      case DrainCheck => cfg.offices + 4
      case Scanning(next, sum) => if sum == 0 then cfg.offices + 2 - next else 2 * cfg.offices + 5 - next
      case Cancelling => 0
    else if m.main.PushM? then 4
    else if m.main.UnlockQueueM? then 3
    else if m.main.DrainCheck? then 2
    else if m.main.DrainUnlock? then 1
    else 0
  }

  /** The step brings the cancellation nearer. */
  ghost predicate Descends(m: Machine, m': Machine, cfg: Config)
    requires Fits(m, cfg) && Fits(m', cfg)
  {
    && Stopping(m')
    && (|| WorkAhead(m', cfg) < WorkAhead(m, cfg)
        || (WorkAhead(m', cfg) == WorkAhead(m, cfg) && MainRank(m', cfg) < MainRank(m, cfg)))
  }

  lemma MainStepDescends(m: Machine, input: Input, cfg: Config)
    requires CoreInv(m, cfg) && Stopping(m) && MainEnabled(m, input, cfg)
    requires input == if m.main.Reading? then EndOfInput else NoInput
    requires Resting(m) || MainHoldsMutex(m.main)
    ensures Fits(MainApply(m, input, cfg), cfg) && Descends(m, MainApply(m, input, cfg), cfg)
  {
    hide KnowledgeInv, LockInv, Work, QueueFits;
    MainApplyFits(m, input, cfg);
    MainStepWorks(m, input, cfg);
    if Resting(m) {
      RestHoldsNoMutex(m, cfg);
      assert FlagsTell(m);
    }
  }

  /** Once the input is closed, in every state some step brings the end nearer. */
  lemma NextDrainStep(m: Machine, cfg: Config) returns (step: Step)
    requires CoreInv(m, cfg) && Stopping(m) && !m.main.Cancelling?
    ensures Enabled(m, step, cfg) && !IsArrival(step) && Descends(m, Apply(m, step, cfg), cfg)
  {
    hide Work, MainRank, SyncInv, LockInv, KnowledgeInv, QueueFits;
    NoDeadlock(m, cfg);
    if SomeOfficeSteps(m, cfg) {
      var i: nat :| i < cfg.offices && OfficeEnabled(m, i, cfg);
      step := OfficeStep(i, []);
      OfficeStepRanks(m, i, [], cfg);
      OfficeStepWorks(m, i, [], cfg);
      InputStaysClosed(m, i, [], cfg);
    } else {
      var input := if m.main.Reading? then EndOfInput else NoInput;
      step := MainStep(input);
      MainStepDescends(m, input, cfg);
    }
  }

  lemma InputStaysClosed(m: Machine, i: nat, salt: Text, cfg: Config)
    requires Fits(m, cfg) && OfficeEnabled(m, i, cfg)
    ensures m.inputClosed ==> OfficeApply(m, i, salt, cfg).inputClosed
  {
    hide BankStep, QueueFits;
  }

  /** From every state after a shutdown has closed the input, the server can reach the
      cancellation of its offices: no request, however far it got, blocks it for ever. */
  lemma DrainCanFinish(s: State, cfg: Config) returns (steps: seq<Step>)
    requires StateFits(s, cfg) && CoreInv(s.m, cfg) && Stopping(s.m)
    ensures ValidRun(s, steps, cfg) && Final(s, steps, cfg).m.main.Cancelling? && Arrivals(steps) == []
    decreases WorkAhead(s.m, cfg), MainRank(s.m, cfg)
  {
    hide WorkAhead, MainRank, CoreInv, QueueFits;
    if s.m.main.Cancelling? {
      steps := [];
    } else {
      var step := NextDrainStep(s.m, cfg);
      CoreStep(s.m, step, cfg);
      var rest := DrainCanFinish(Next(s, step, cfg), cfg);
      steps := [step] + rest;
      assert steps[1..] == rest;
    }
  }

  // ----- once the offices rest, the drain must come to its end -----

  /** With everything at rest during the drain only the main thread can step, and each
      of its steps brings the cancellation nearer. */
  lemma RestingDrainStep(m: Machine, step: Step, cfg: Config)
    requires CoreInv(m, cfg) && Resting(m) && Draining(m.main) && Enabled(m, step, cfg)
    ensures step == MainStep(NoInput)
    ensures var m' := Apply(m, step, cfg);
            Resting(m') && Draining(m'.main) && MainRank(m', cfg) < MainRank(m, cfg)
  {
    hide QueueFits, Work, SyncInv, LockInv, KnowledgeInv, OfficeApply;
    MainStepDescends(m, NoInput, cfg);
    MainStepWorks(m, NoInput, cfg);
  }

  lemma RestingDrainEnabled(m: Machine, cfg: Config)
    requires CoreInv(m, cfg) && Resting(m) && Draining(m.main) && !m.main.Cancelling?
    ensures MainEnabled(m, NoInput, cfg)
  {
    RestHoldsNoMutex(m, cfg);
  }

  /** So whatever the schedule, the rest of the drain is bounded, and as long as it has
      not come to the cancellation it can go on. */
  lemma {:induction false} RestingDrainBound(s: State, steps: seq<Step>, cfg: Config)
    requires StateFits(s, cfg) && CoreInv(s.m, cfg) && Resting(s.m) && Draining(s.m.main)
    requires ValidRun(s, steps, cfg)
    ensures var f := Final(s, steps, cfg);
            && |steps| + MainRank(f.m, cfg) <= MainRank(s.m, cfg)
            && steps == seq(|steps|, k => MainStep(NoInput))
            && Resting(f.m) && Draining(f.m.main)
            && (f.m.main.Cancelling? || MainEnabled(f.m, NoInput, cfg))
    decreases |steps|
  {
    hide CoreInv, QueueFits, MainRank, Resting;
    if steps == [] {
      if !s.m.main.Cancelling? {
        RestingDrainEnabled(s.m, cfg);
      }
    } else {
      RestingDrainStep(s.m, steps[0], cfg);
      CoreStep(s.m, steps[0], cfg);
      RestingDrainBound(Next(s, steps[0], cfg), steps[1..], cfg);
    }
  }
}
