/** From what arrives at the FIFO to what is pushed to the queue, and that any requests
    that arrive can be served. */
module Intake {
  import opened BankTypes
  import opened OfficeMachine
  import opened Histories
  import opened CoreInvariant
  import opened Progress

  predicate IsArrival(step: Step) {
    step.MainStep? && step.input.Arrival?
  }

  function ReadBy(step: Step): seq<Request> {
    if IsArrival(step) then [step.input.req] else []
  }

  /** The requests that the main thread reads during the run. */
  function Arrivals(steps: seq<Step>): seq<Request> {
    if steps == [] then [] else ReadBy(steps[0]) + Arrivals(steps[1..])
  }

  lemma {:induction false} NoneArrives(steps: seq<Step>)
    requires Arrivals(steps) == []
    ensures forall k :: 0 <= k < |steps| ==> !IsArrival(steps[k])
  {
    if steps != [] {
      NoneArrives(steps[1..]);
      assert forall k :: 1 <= k < |steps| ==> steps[k] == steps[1..][k - 1];
    }
  }

  lemma Regroup(a: seq<Request>, b: seq<Request>, c: seq<Request>)
    ensures a + (b + c) == (a + b) + c
  {
  }

  lemma {:induction false} ArrivalsConnect(steps: seq<Step>, more: seq<Step>)
    ensures Arrivals(steps + more) == Arrivals(steps) + Arrivals(more)
  {
    hide ReadBy;
    if steps == [] {
      assert steps + more == more;
    } else {
      assert (steps + more)[0] == steps[0] && (steps + more)[1..] == steps[1..] + more;
      ArrivalsConnect(steps[1..], more);
      Regroup(ReadBy(steps[0]), Arrivals(steps[1..]), Arrivals(more));
    }
  }

  /** The request that has been read and not yet been pushed. */
  function InMainsHand(main: MainPc): seq<Request> {
    if main.WaitEmpty? || main.LockQueueM? || main.PushM? then [main.req] else []
  }

  lemma OfficeLeavesMain(m: Machine, i: nat, salt: Text, cfg: Config)
    requires Fits(m, cfg) && OfficeEnabled(m, i, cfg)
    ensures OfficeApply(m, i, salt, cfg).main == m.main
  {
    hide QueueFits;
    OfficeStepRanks(m, i, salt, cfg);
  }

  lemma IntakeStep(s: State, step: Step, cfg: Config)
    requires StateFits(s, cfg) && Enabled(s.m, step, cfg)
    ensures var s' := Next(s, step, cfg);
            s'.h.pushed + InMainsHand(s'.m.main) ==
            s.h.pushed + InMainsHand(s.m.main) + Arrivals([step])
  {
    hide OfficeApply, QueueFits;
    assert [step][1..] == [];
    assert Arrivals([step]) == ReadBy(step);
    if step.OfficeStep? {
      OfficeLeavesMain(s.m, step.office, step.salt, cfg);
    }
  }

  /** The main thread hands on what arrives: all of it, unchanged and in order. */
  lemma {:induction false} IntakeRun(s: State, steps: seq<Step>, cfg: Config)
    requires StateFits(s, cfg) && ValidRun(s, steps, cfg)
    ensures var f := Final(s, steps, cfg);
            f.h.pushed + InMainsHand(f.m.main) == s.h.pushed + InMainsHand(s.m.main) + Arrivals(steps)
    decreases |steps|
  {
    hide Next, Enabled, StateFits, InMainsHand;
    if steps != [] {
      IntakeStep(s, steps[0], cfg);
      IntakeRun(Next(s, steps[0], cfg), steps[1..], cfg);
      assert [steps[0]] + steps[1..] == steps;
      ArrivalsConnect([steps[0]], steps[1..]);
    }
  }

  // ----- any requests can be served -----

  /** The offices can be run until none of them can step. */
  lemma RunOffices(s: State, cfg: Config) returns (steps: seq<Step>)
    requires StateFits(s, cfg) && CoreInv(s.m, cfg)
    ensures ValidRun(s, steps, cfg) && Arrivals(steps) == []
    ensures var m := Final(s, steps, cfg).m;
            CoreInv(m, cfg) && !SomeOfficeSteps(m, cfg) && m.main == s.m.main
    decreases Work(s.m, cfg)
  {
    hide CoreInv, Work, QueueFits, OfficeEnabled, OfficeApply, Record;
    if i: nat :| i < cfg.offices && OfficeEnabled(s.m, i, cfg) {
      var step := OfficeStep(i, []);
      CoreStep(s.m, step, cfg);
      OfficeStepWorks(s.m, i, [], cfg);
      OfficeLeavesMain(s.m, i, [], cfg);
      var rest := RunOffices(Next(s, step, cfg), cfg);
      steps := [step] + rest;
      assert steps[1..] == rest;
    } else {
      steps := [];
    }
  }

  /** The main thread's steps from here to the next read. */
  function PushStage(main: MainPc): nat {
    match main
    case WaitEmpty(_) => 5
    case LockQueueM(_) => 4
    case PushM(_) => 3
    case UnlockQueueM => 2
    case PostFull => 1
    case _ => 0
  }

  /** With the offices at rest a request in hand can be pushed without any wait. */
  lemma RunMain(s: State, cfg: Config) returns (steps: seq<Step>)
    requires StateFits(s, cfg) && CoreInv(s.m, cfg)
    requires s.m.main.Reading? || (PushStage(s.m.main) > 0 && Resting(s.m))
    ensures ValidRun(s, steps, cfg) && Arrivals(steps) == []
    ensures var m := Final(s, steps, cfg).m; CoreInv(m, cfg) && m.main.Reading?
    decreases PushStage(s.m.main)
  {
    hide QueueFits, BankStep;
    if s.m.main.Reading? {
      steps := [];
    } else {
      var step := MainStep(NoInput);
      RestHoldsNoMutex(s.m, cfg);
      assert MainEnabled(s.m, NoInput, cfg);
      CoreStep(s.m, step, cfg);
      var rest := RunMain(Next(s, step, cfg), cfg);
      steps := [step] + rest;
      assert steps[1..] == rest;
    }
  }

  /** A state in which the server waits for its next request. */
  predicate Idle(m: Machine, cfg: Config) {
    Fits(m, cfg) && CoreInv(m, cfg) && m.main.Reading? && Resting(m)
  }

  lemma QuietReadingIsIdle(m: Machine, cfg: Config)
    requires CoreInv(m, cfg) && m.main.Reading? && !SomeOfficeSteps(m, cfg)
    ensures Idle(m, cfg)
  {
    hide QueueFits, SomeOfficeSteps;
    NoDeadlock(m, cfg);
  }

  /** From an idle server, one request is read, pushed and worked off. */
  lemma ServeOne(s: State, req: Request, cfg: Config) returns (steps: seq<Step>)
    requires StateFits(s, cfg) && Idle(s.m, cfg) && InRange(req, cfg.accounts)
    ensures ValidRun(s, steps, cfg) && Arrivals(steps) == [req]
    ensures Idle(Final(s, steps, cfg).m, cfg)
  {
    hide CoreInv, QueueFits, SomeOfficeSteps, Next;
    var first := MainStep(Arrival(req));
    ArrivalIsInHand(s, req, cfg);
    var s1 := Next(s, first, cfg);
    var push := RunMain(s1, cfg);
    var work := RunOffices(Final(s1, push, cfg), cfg);
    RunsConnect(s1, push, work, cfg);
    ArrivalsConnect(push, work);
    steps := [first] + (push + work);
    assert steps[1..] == push + work;
    QuietReadingIsIdle(Final(s, steps, cfg).m, cfg);
  }

  lemma ArrivalIsInHand(s: State, req: Request, cfg: Config)
    requires StateFits(s, cfg) && Idle(s.m, cfg) && InRange(req, cfg.accounts)
    ensures Enabled(s.m, MainStep(Arrival(req)), cfg)
    ensures var m := Next(s, MainStep(Arrival(req)), cfg).m; CoreInv(m, cfg) && m.main == WaitEmpty(req) && Resting(m)
  {
    hide CoreInv, QueueFits, Record;
    CoreStep(s.m, MainStep(Arrival(req)), cfg);
  }

  /** And so any number of them, one after the other. */
  lemma {:induction false} ServeAll(s: State, reqs: seq<Request>, cfg: Config) returns (steps: seq<Step>)
    requires StateFits(s, cfg) && Idle(s.m, cfg)
    requires forall k :: 0 <= k < |reqs| ==> InRange(reqs[k], cfg.accounts)
    ensures ValidRun(s, steps, cfg) && Arrivals(steps) == reqs
    ensures Idle(Final(s, steps, cfg).m, cfg)
    decreases |reqs|
  {
    hide Idle, InRange, StateFits;
    if reqs == [] {
      steps := [];
    } else {
      var one := ServeOne(s, reqs[0], cfg);
      var rest := ServeAll(Final(s, one, cfg), reqs[1..], cfg);
      RunsConnect(s, one, rest, cfg);
      ArrivalsConnect(one, rest);
      steps := one + rest;
    }
  }
}
