/** Unending executions: under strong fairness of every thread a drain comes to its end. */
module Fairness {
  import opened BankTypes
  import opened OfficeMachine
  import opened Histories
  import opened QueueProtocol
  import opened CoreInvariant
  import opened Progress
  import opened Drain
  import opened Intake

  /** The state at each moment, and the step taken there; None where nothing happens. */
  datatype Execution = Execution(state: nat -> State, pick: nat -> Option<Step>)

  ghost predicate StepsAt(e: Execution, n: nat, cfg: Config) {
    && StateFits(e.state(n), cfg)
    && match e.pick(n)
       case None => e.state(n + 1) == e.state(n)
       case Some(step) => Enabled(e.state(n).m, step, cfg) && e.state(n + 1) == Next(e.state(n), step, cfg)
  }

  ghost predicate IsExecution(e: Execution, cfg: Config) {
    forall n: nat :: StepsAt(e, n, cfg)
  }

  /** The thread can step on its own; the main thread need not wait for more input. */
  predicate ThreadEnabled(m: Machine, t: Thread, cfg: Config) {
    && Fits(m, cfg)
    && match t
       case Main => MainEnabled(m, NoInput, cfg) || MainEnabled(m, EndOfInput, cfg)
       case Worker(i) => OfficeEnabled(m, i, cfg)
  }

  predicate Moves(e: Execution, n: nat, t: Thread) {
    && e.pick(n).Some?
    && match t
       case Main => e.pick(n).value.MainStep?
       case Worker(i) => e.pick(n).value.OfficeStep? && e.pick(n).value.office == i
  }

  ghost predicate EnabledAgain(e: Execution, t: Thread, n: nat, cfg: Config) {
    exists k: nat :: k >= n && ThreadEnabled(e.state(k).m, t, cfg)
  }

  ghost predicate MovesAgain(e: Execution, t: Thread, n: nat) {
    exists k: nat :: k >= n && Moves(e, k, t)
  }

  /** A thread that is enabled again and again steps again and again. */
  ghost predicate StronglyFair(e: Execution, t: Thread, cfg: Config) {
    (forall n: nat :: EnabledAgain(e, t, n, cfg)) ==> (forall n: nat :: MovesAgain(e, t, n))
  }

  ghost predicate Fair(e: Execution, cfg: Config) {
    forall t: Thread :: StronglyFair(e, t, cfg)
  }

  ghost predicate NothingArrives(e: Execution) {
    forall n: nat :: e.pick(n).Some? ==> !IsArrival(e.pick(n).value)
  }

  /** An execution from a state in which the input has ended or a shutdown has closed it;
      no further request arrives. */
  ghost predicate StopExecution(e: Execution, cfg: Config) {
    && IsExecution(e, cfg) && NothingArrives(e)
    && StateFits(e.state(0), cfg) && CoreInv(e.state(0).m, cfg) && Stopping(e.state(0).m)
  }

  // ----- the work of the offices settles -----

  lemma StopStepWorks(s: State, step: Step, cfg: Config)
    requires StateFits(s, cfg) && CoreInv(s.m, cfg) && Stopping(s.m)
    requires Enabled(s.m, step, cfg) && !IsArrival(step)
    ensures var s' := Next(s, step, cfg);
            && CoreInv(s'.m, cfg) && Stopping(s'.m)
            && (if step.OfficeStep? then WorkAhead(s'.m, cfg) < WorkAhead(s.m, cfg)
                else WorkAhead(s'.m, cfg) == WorkAhead(s.m, cfg))
  {
    hide CoreInv, Work, QueueFits, BankStep, LoopStep, ShutdownStep, Record;
    CoreStep(s.m, step, cfg);
    match step
    case OfficeStep(i, salt) =>
      OfficeStepWorks(s.m, i, salt, cfg);
      OfficeLeavesMain(s.m, i, salt, cfg);
      InputStaysClosed(s.m, i, salt, cfg);
    case MainStep(input) => MainStepWorks(s.m, input, cfg);
  }

  lemma {:induction false} StopGoesOnAt(e: Execution, n: nat, cfg: Config)
    requires StopExecution(e, cfg)
    ensures StateFits(e.state(n), cfg) && CoreInv(e.state(n).m, cfg) && Stopping(e.state(n).m)
  {
    hide CoreInv, StateFits, Next, Enabled, Stopping;
    if n > 0 {
      StopGoesOnAt(e, n - 1, cfg);
      assert StepsAt(e, n - 1, cfg) && StepsAt(e, n, cfg);
      if e.pick(n - 1).Some? {
        StopStepWorks(e.state(n - 1), e.pick(n - 1).value, cfg);
      }
    }
  }

  lemma WorkFallsAt(e: Execution, n: nat, cfg: Config)
    requires StopExecution(e, cfg)
    ensures WorkAhead(e.state(n + 1).m, cfg) <= WorkAhead(e.state(n).m, cfg)
    ensures e.pick(n).Some? && e.pick(n).value.OfficeStep? ==>
              WorkAhead(e.state(n + 1).m, cfg) < WorkAhead(e.state(n).m, cfg)
  {
    hide CoreInv, StateFits, Next, Enabled, WorkAhead;
    StopGoesOnAt(e, n, cfg);
    assert StepsAt(e, n, cfg);
    if e.pick(n).Some? {
      StopStepWorks(e.state(n), e.pick(n).value, cfg);
    }
  }

  lemma {:induction false} WorkFalls(e: Execution, n: nat, k: nat, cfg: Config)
    requires StopExecution(e, cfg) && n <= k
    ensures WorkAhead(e.state(k).m, cfg) <= WorkAhead(e.state(n).m, cfg)
    decreases k
  {
    hide StopExecution, WorkAhead;
    if n < k {
      WorkFalls(e, n, k - 1, cfg);
      WorkFallsAt(e, k - 1, cfg);
    }
  }

  /** From some moment on no work is done any more, so no office steps. */
  lemma {:induction false} WorkSettles(e: Execution, n: nat, cfg: Config) returns (settled: nat)
    requires StopExecution(e, cfg)
    ensures forall k: nat :: k >= settled ==> WorkAhead(e.state(k).m, cfg) == WorkAhead(e.state(settled).m, cfg)
    decreases WorkAhead(e.state(n).m, cfg)
  {
    hide StopExecution, WorkAhead;
    if k: nat :| k >= n && WorkAhead(e.state(k).m, cfg) < WorkAhead(e.state(n).m, cfg) {
      settled := WorkSettles(e, k, cfg);
    } else {
      settled := n;
      forall k: nat | k >= n
        ensures WorkAhead(e.state(k).m, cfg) == WorkAhead(e.state(n).m, cfg)
      {
        WorkFalls(e, n, k, cfg);
      }
    }
  }

  // ----- so, by fairness, every office is disabled for good -----

  lemma {:induction false} OfficesStop(e: Execution, settled: nat, i: nat, cfg: Config) returns (quiet: nat)
    requires StopExecution(e, cfg) && Fair(e, cfg) && i <= cfg.offices
    requires forall k: nat :: k >= settled ==> WorkAhead(e.state(k).m, cfg) == WorkAhead(e.state(settled).m, cfg)
    ensures forall j: nat, k: nat :: j < i && k >= quiet ==> !ThreadEnabled(e.state(k).m, Worker(j), cfg)
    decreases i
  {
    hide StopExecution, WorkAhead, ThreadEnabled;
    if i == 0 {
      quiet := 0;
    } else {
      var before := OfficesStop(e, settled, i - 1, cfg);
      var t := Worker(i - 1);
      forall k: nat | k >= settled
        ensures !Moves(e, k, t)
      {
        WorkFallsAt(e, k, cfg);
      }
      assert StronglyFair(e, t, cfg) && !MovesAgain(e, t, settled);
      var n: nat :| !EnabledAgain(e, t, n, cfg);
      quiet := if n > before then n else before;
      forall j: nat, k: nat | j < i && k >= quiet
        ensures !ThreadEnabled(e.state(k).m, Worker(j), cfg)
      {
      }
    }
  }

  // ----- and the main thread, always enabled, comes to the cancellation -----

  ghost predicate QuietFrom(e: Execution, quiet: nat, cfg: Config) {
    forall j: nat, k: nat :: j < cfg.offices && k >= quiet ==> !ThreadEnabled(e.state(k).m, Worker(j), cfg)
  }

  lemma MainIsEnabled(e: Execution, quiet: nat, k: nat, cfg: Config)
    requires StopExecution(e, cfg) && QuietFrom(e, quiet, cfg) && k >= quiet
    ensures Fits(e.state(k).m, cfg) && CoreInv(e.state(k).m, cfg) && Stopping(e.state(k).m)
    ensures !SomeOfficeSteps(e.state(k).m, cfg)
    ensures e.state(k).m.main.Cancelling? || ThreadEnabled(e.state(k).m, Main, cfg)
    ensures Resting(e.state(k).m) || MainHoldsMutex(e.state(k).m.main)
  {
    hide CoreInv, QueueFits, OfficeEnabled, StopExecution;
    StopGoesOnAt(e, k, cfg);
    NoDeadlock(e.state(k).m, cfg);
    forall i: nat | i < cfg.offices
      ensures !OfficeEnabled(e.state(k).m, i, cfg)
    {
      assert !ThreadEnabled(e.state(k).m, Worker(i), cfg);
    }
  }

  /** Whether it reads the end of input or an empty message makes no difference. */
  lemma QuietMainDescends(m: Machine, input: Input, cfg: Config)
    requires CoreInv(m, cfg) && Stopping(m) && MainEnabled(m, input, cfg) && !input.Arrival?
    requires Resting(m) || MainHoldsMutex(m.main)
    ensures Fits(MainApply(m, input, cfg), cfg) && Descends(m, MainApply(m, input, cfg), cfg)
  {
    hide CoreInv, QueueFits, MainRank, WorkAhead, Resting;
    MainStepDescends(m, if m.main.Reading? then EndOfInput else NoInput, cfg);
  }

  /** While the offices are quiet, each of its steps brings the end nearer. */
  lemma MainRankFallsAt(e: Execution, quiet: nat, k: nat, cfg: Config)
    requires StopExecution(e, cfg) && QuietFrom(e, quiet, cfg) && k >= quiet
    ensures Fits(e.state(k).m, cfg) && Fits(e.state(k + 1).m, cfg)
    ensures MainRank(e.state(k + 1).m, cfg) <= MainRank(e.state(k).m, cfg)
    ensures Moves(e, k, Main) ==> MainRank(e.state(k + 1).m, cfg) < MainRank(e.state(k).m, cfg)
  {
    hide CoreInv, QueueFits, MainRank, WorkAhead, Resting, Stopping;
    MainIsEnabled(e, quiet, k, cfg);
    assert StepsAt(e, k, cfg) && StepsAt(e, k + 1, cfg);
    if e.pick(k).Some? {
      var s, step := e.state(k), e.pick(k).value;
      assert step.OfficeStep? ==> OfficeEnabled(s.m, step.office, cfg);
      StopStepWorks(s, step, cfg);
      QuietMainDescends(s.m, step.input, cfg);
    }
  }

  lemma {:induction false} MainRankFalls(e: Execution, quiet: nat, n: nat, k: nat, cfg: Config)
    requires StopExecution(e, cfg) && QuietFrom(e, quiet, cfg) && quiet <= n <= k
    ensures Fits(e.state(n).m, cfg) && Fits(e.state(k).m, cfg)
    ensures MainRank(e.state(k).m, cfg) <= MainRank(e.state(n).m, cfg)
    decreases k
  {
    hide StopExecution, QuietFrom, MainRank, Fits;
    MainRankFallsAt(e, quiet, n, cfg);
    if n < k {
      MainRankFalls(e, quiet, n, k - 1, cfg);
      MainRankFallsAt(e, quiet, k - 1, cfg);
    }
  }

  lemma {:induction false} MainFinishes(e: Execution, quiet: nat, n: nat, cfg: Config)
    requires StopExecution(e, cfg) && QuietFrom(e, quiet, cfg) && quiet <= n
    requires StronglyFair(e, Main, cfg) && Fits(e.state(n).m, cfg)
    ensures exists k: nat :: e.state(k).m.main.Cancelling?
    decreases MainRank(e.state(n).m, cfg)
  {
    hide StopExecution, QuietFrom, MainRank, Fits, ThreadEnabled, Moves;
    if forall k: nat :: !e.state(k).m.main.Cancelling? {
      forall from: nat
        ensures EnabledAgain(e, Main, from, cfg)
      {
        var k := if from > quiet then from else quiet;
        MainIsEnabled(e, quiet, k, cfg);
      }
      assert MovesAgain(e, Main, n);
      var k: nat :| k >= n && Moves(e, k, Main);
      MainRankFalls(e, quiet, n, k, cfg);
      MainRankFallsAt(e, quiet, k, cfg);
      MainFinishes(e, quiet, k + 1, cfg);
    }
  }

  /** Whatever a strongly fair scheduler does, a server whose input is closed comes to the
      cancellation. */
  lemma FairStopEnds(e: Execution, cfg: Config) returns (n: nat)
    requires StopExecution(e, cfg) && Fair(e, cfg)
    ensures e.state(n).m.main.Cancelling?
  {
    hide StopExecution, ThreadEnabled, Fits;
    var settled := WorkSettles(e, 0, cfg);
    var quiet := OfficesStop(e, settled, cfg.offices, cfg);
    assert QuietFrom(e, quiet, cfg);
    assert StronglyFair(e, Main, cfg);
    MainIsEnabled(e, quiet, quiet, cfg);
    MainFinishes(e, quiet, quiet, cfg);
    n :| e.state(n).m.main.Cancelling?;
  }

  // ----- fair executions exist -----

  /** The run, after which nothing happens any more. */
  function ExecutionOf(s: State, steps: seq<Step>, cfg: Config): Execution
    requires StateFits(s, cfg) && ValidRun(s, steps, cfg)
  {
    Execution((n: nat) => StateAt(s, steps, n, cfg), (n: nat) => if n < |steps| then Some(steps[n]) else None)
  }

  lemma RunIsExecution(s: State, steps: seq<Step>, cfg: Config)
    requires StateFits(s, cfg) && ValidRun(s, steps, cfg)
    ensures IsExecution(ExecutionOf(s, steps, cfg), cfg)
  {
    hide ValidRun, StateAt, Next, Enabled, StateFits;
    var e := ExecutionOf(s, steps, cfg);
    forall n: nat
      ensures StepsAt(e, n, cfg)
    {
      StateAtFollowsRun(s, steps, n, cfg);
      StateAtFollowsRun(s, steps, n + 1, cfg);
    }
  }

  /** A run that ends with every thread disabled treats all of them fairly. */
  lemma FinishedRunIsFair(s: State, steps: seq<Step>, cfg: Config)
    requires StateFits(s, cfg) && ValidRun(s, steps, cfg)
    requires forall t: Thread :: !ThreadEnabled(Final(s, steps, cfg).m, t, cfg)
    ensures Fair(ExecutionOf(s, steps, cfg), cfg)
  {
    hide ValidRun, StateAt, Next, ThreadEnabled;
    var e := ExecutionOf(s, steps, cfg);
    forall t: Thread
      ensures StronglyFair(e, t, cfg)
    {
      forall k: nat | k >= |steps|
        ensures !ThreadEnabled(e.state(k).m, t, cfg)
      {
        StateAtFollowsRun(s, steps, k, cfg);
      }
      assert !EnabledAgain(e, t, |steps|, cfg);
    }
  }

  lemma RestDisablesAll(m: Machine, cfg: Config)
    requires Fits(m, cfg) && m.main.Cancelling? && !SomeOfficeSteps(m, cfg)
    ensures forall t: Thread :: !ThreadEnabled(m, t, cfg)
  {
  }

  /** From every such state there is a fair execution, so the result above is about
      something. */
  lemma FairStopExists(s: State, cfg: Config) returns (e: Execution)
    requires StateFits(s, cfg) && CoreInv(s.m, cfg) && Stopping(s.m)
    ensures e.state(0) == s && StopExecution(e, cfg) && Fair(e, cfg)
  {
    hide CoreInv, QueueFits, ValidRun, Next, Stopping;
    var finish := DrainCanFinish(s, cfg);
    RunKeepsCore(s, finish, cfg);
    var rest := RunOffices(Final(s, finish, cfg), cfg);
    RestDisablesAll(Final(Final(s, finish, cfg), rest, cfg).m, cfg);
    RunsConnect(s, finish, rest, cfg);
    ArrivalsConnect(finish, rest);
    NoneArrives(finish + rest);
    e := ExecutionOf(s, finish + rest, cfg);
    RunIsExecution(s, finish + rest, cfg);
    FinishedRunIsFair(s, finish + rest, cfg);
  }

  lemma {:induction false} RunKeepsCore(s: State, steps: seq<Step>, cfg: Config)
    requires StateFits(s, cfg) && ValidRun(s, steps, cfg) && CoreInv(s.m, cfg)
    ensures CoreInv(Final(s, steps, cfg).m, cfg)
    decreases |steps|
  {
    hide CoreInv, StateFits, Apply;
    if steps != [] {
      CoreStep(s.m, steps[0], cfg);
      RunKeepsCore(Next(s, steps[0], cfg), steps[1..], cfg);
    }
  }
}
