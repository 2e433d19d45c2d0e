/** What holds in every state that any run of the server reaches, for any number of
    offices and accounts, any buffer size, any requests and any interleaving. */
module Guarantees {
  import opened BankTypes
  import opened OfficeMachine
  import opened Histories
  import opened AccountLocks
  import opened HandlerKnowledge
  import opened QueueProtocol
  import opened CoreInvariant
  import opened AtomicBank
  import opened Refinement
  import opened Delivery
  import opened Linearizability
  import opened Progress
  import opened Drain
  import opened Intake
  import opened Fairness
  import opened ShutdownRequests
  import opened Money
  import opened Statements
  import Rings

  ghost predicate Inv(s: State, l0: Ledger, cfg: Config) {
    LinearReady(s, l0, cfg) && DrainInv(s.m, cfg) && ShutdownInv(s, cfg)
  }

  lemma InvInitially(s: State, cfg: Config)
    requires Initial(s, cfg)
    ensures Inv(s, Concrete(s.m, cfg), cfg)
  {
    CoreInitially(s.m, cfg);
    DeliveryInitially(s, cfg);
    LinearInitially(s, cfg);
  }

  lemma InvStep(s: State, step: Step, l0: Ledger, cfg: Config)
    requires Inv(s, l0, cfg) && Enabled(s.m, step, cfg)
    ensures Inv(Next(s, step, cfg), l0, cfg)
    ensures Grows(s.m.bank, Next(s, step, cfg).m.bank)
  {
    hide CoreInv, DeliveryInv, LinearInv, DrainInv, ShutdownInv, Grows;
    CoreStep(s.m, step, cfg);
    DeliveryStep(s, step, cfg);
    LinearStep(s, step, l0, cfg);
    DrainStep(s.m, step, cfg);
    ShutdownStepKeeps(s, step, l0, cfg);
  }

  lemma GrowsTransitively(b: Bank, b1: Bank, b2: Bank)
    requires Grows(b, b1) && Grows(b1, b2)
    ensures Grows(b, b2)
  {
  }

  lemma {:induction false} InvRun(s: State, steps: seq<Step>, l0: Ledger, cfg: Config)
    requires Inv(s, l0, cfg) && ValidRun(s, steps, cfg)
    ensures Inv(Final(s, steps, cfg), l0, cfg)
    ensures Grows(s.m.bank, Final(s, steps, cfg).m.bank)
    decreases |steps|
  {
    if steps != [] {
      var s1 := Next(s, steps[0], cfg);
      InvStep(s, steps[0], l0, cfg);
      InvRun(s1, steps[1..], l0, cfg);
      GrowsTransitively(s.m.bank, s1.m.bank, Final(s, steps, cfg).m.bank);
    }
  }

  /** Some run from the initial state `s0` reaches `s`. */
  ghost predicate Reachable(s0: State, s: State, cfg: Config) {
    Initial(s0, cfg) && ReachedFrom(s0, s, cfg)
  }

  lemma InvReachable(s0: State, s: State, cfg: Config)
    requires Reachable(s0, s, cfg)
    ensures Inv(s, Concrete(s0.m, cfg), cfg)
  {
    var steps :| ValidRun(s0, steps, cfg) && Final(s0, steps, cfg) == s;
    InvInitially(s0, cfg);
    InvRun(s0, steps, Concrete(s0.m, cfg), cfg);
  }

  /** Every configuration has an initial state. */
  lemma InitialExists(cfg: Config, admin: Account, anyOffice: Office) returns (s: State)
    requires 0 < cfg.offices < TWO_32 && cfg.accounts > 0 && cfg.bufferSize > 0
    requires admin.id == ADMIN && admin.balance == 0
    ensures Initial(s, cfg) && Reachable(s, s, cfg)
  {
    var bank := Bank(seq(cfg.accounts, a => a == 0), seq(cfg.accounts, a => admin), seq(cfg.accounts, a => None));
    var queue := Rings.Ring(seq(cfg.bufferSize, k => anyOffice.req), 0, cfg.bufferSize - 1, 0);
    var m := Machine(bank, seq(cfg.offices, i => anyOffice.(pc := Start)), seq(cfg.offices, i => true), queue,
                     None, cfg.bufferSize, 0, false, Reading);
    s := State(m, History([], [], [], seq(cfg.offices, i => 0), [], map[], map[], false));
    assert ValidRun(s, [], cfg) && Final(s, [], cfg) == s;
  }

  // ----- linearizability -----

  /** `order` runs requests of the server one after the other on the atomic bank, each
      ticket at most once, in an order that respects real time; every reply sent is the
      one that the atomic bank gives there. */
  ghost predicate Explains(order: seq<Event>, l0: Ledger, h: History, cfg: Config) {
    && EventsFit(order, |l0|) && Legal(cfg.hash, l0, order) && TicketsDistinct(order)
    && (forall p :: 0 <= p < |order| ==>
          order[p].ticket < |h.popped| && order[p].req == h.popped[order[p].ticket])
    && (forall t :: t in h.replies ==> exists p :: ForTicket(order, p, t) && order[p].reply == h.replies[t])
    && (forall p, t :: 0 <= p < |order| && order[p].ticket < |h.repliedBefore|
                       && t in h.repliedBefore[order[p].ticket] ==>
          exists q :: q < p && ForTicket(order, q, t))
  }

  lemma QuietMemoryIsAbstract(m: Machine, cfg: Config)
    requires CoreInv(m, cfg) && forall i :: 0 <= i < cfg.offices ==> !InHand(m.offices[i].pc)
    ensures Concrete(m, cfg) == Abstract(m, cfg)
  {
    forall a | 0 <= a < cfg.accounts
      ensures Concrete(m, cfg)[a] == Abstract(m, cfg)[a]
    {
      assert m.bank.locks[a].Some? ==> Holds(m.offices[m.bank.locks[a].value], a);
    }
  }

  lemma Linearizable(s0: State, s: State, cfg: Config)
    requires Reachable(s0, s, cfg)
    ensures Explains(s.h.events, Concrete(s0.m, cfg), s.h, cfg)
    ensures Replay(cfg.hash, Concrete(s0.m, cfg), s.h.events) == Abstract(s.m, cfg)
    ensures (forall i :: 0 <= i < cfg.offices ==> !InHand(s.m.offices[i].pc)) ==>
              Replay(cfg.hash, Concrete(s0.m, cfg), s.h.events) == Concrete(s.m, cfg)
  {
    InvReachable(s0, s, cfg);
    forall t | t in s.h.replies
      ensures exists p :: ForTicket(s.h.events, p, t) && s.h.events[p].reply == s.h.replies[t]
    {
      var p :| ForTicket(s.h.events, p, t);
      assert s.h.events[p].reply == s.h.replies[t];
    }
    if forall i :: 0 <= i < cfg.offices ==> !InHand(s.m.offices[i].pc) {
      QuietMemoryIsAbstract(s.m, cfg);
    }
  }

  /** Request t was replied to before request u was popped. */
  predicate Precedes(h: History, t: nat, u: nat) {
    && |h.repliedBefore| == |h.popped|
    && (if u < |h.popped| then t in h.repliedBefore[u] else t in h.replies)
  }

  lemma PrecedenceStays(s: State, step: Step, t: nat, u: nat, cfg: Config)
    requires StateFits(s, cfg) && Enabled(s.m, step, cfg) && Precedes(s.h, t, u)
    ensures Precedes(Next(s, step, cfg).h, t, u)
  {
    hide Apply;
  }

  lemma {:induction false} PrecedenceLasts(s: State, steps: seq<Step>, n: nat, k: nat, t: nat, u: nat, cfg: Config)
    requires StateFits(s, cfg) && ValidRun(s, steps, cfg) && n <= k
    requires Precedes(StateAt(s, steps, n, cfg).h, t, u)
    ensures Precedes(StateAt(s, steps, k, cfg).h, t, u)
    decreases k
  {
    hide Precedes, Next, Enabled, StateFits, ValidRun;
    if n < k {
      PrecedenceLasts(s, steps, n, k - 1, t, u, cfg);
      StateAtFollowsRun(s, steps, k - 1, cfg);
      if k - 1 < |steps| {
        PrecedenceStays(StateAt(s, steps, k - 1, cfg), steps[k - 1], t, u, cfg);
      } else {
        StateAtFollowsRun(s, steps, k, cfg);
      }
    }
  }

  /** Real time, told by the run itself: when t has been replied to in its n-th state and
      the request that takes effect as event p is popped only after that, then t has taken
      effect before p. */
  lemma RealTimeOrder(s0: State, steps: seq<Step>, n: nat, t: nat, p: nat, cfg: Config)
    requires Initial(s0, cfg) && ValidRun(s0, steps, cfg) && n <= |steps|
    requires t in StateAt(s0, steps, n, cfg).h.replies && p < |Final(s0, steps, cfg).h.events|
    requires Final(s0, steps, cfg).h.events[p].ticket >= |StateAt(s0, steps, n, cfg).h.popped|
    ensures exists q :: q < p && ForTicket(Final(s0, steps, cfg).h.events, q, t)
  {
    hide Initial, CoreInv, DeliveryInv, DrainInv, ShutdownInv, DecisionsStand, Replays, ValidRun, Final;
    var s, u := StateAt(s0, steps, n, cfg), Final(s0, steps, cfg).h.events[p].ticket;
    StateAtReached(s0, steps, n, cfg);
    InvReachable(s0, s, cfg);
    assert Precedes(s.h, t, u);
    PrecedenceLasts(s0, steps, n, |steps|, t, u, cfg);
    StateAtFollowsRun(s0, steps, |steps|, cfg);
    assert Reachable(s0, Final(s0, steps, cfg), cfg);
    InvReachable(s0, Final(s0, steps, cfg), cfg);
  }

  // ----- delivery, buffer, drain -----

  ghost predicate CameBy(s0: State, steps: seq<Step>, s: State, cfg: Config) {
    Initial(s0, cfg) && ValidRun(s0, steps, cfg) && Final(s0, steps, cfg) == s
  }

  /** What arrived has been pushed, but for a request still in the main thread's hand;
      what was pushed has been popped in the same order, but for the queue; what was
      popped has been replied to, but for what exactly one office carries. */
  lemma DeliveredOnceInOrder(s0: State, s: State, cfg: Config)
    requires Reachable(s0, s, cfg)
    ensures s.h.pushed == s.h.popped + Rings.Contents(s.m.queue)
    ensures forall i, j :: 0 <= i < j < cfg.offices && InHand(s.m.offices[i].pc) && InHand(s.m.offices[j].pc) ==>
              s.h.ticket[i] != s.h.ticket[j]
    ensures forall t :: 0 <= t < |s.h.popped| ==>
              (t in s.h.replies <==> !exists i :: Carries(s.m, s.h, i, t))
    ensures forall i :: 0 <= i < cfg.offices && InHand(s.m.offices[i].pc) ==>
              s.h.ticket[i] < |s.h.popped| && s.h.popped[s.h.ticket[i]] == s.m.offices[i].req
    ensures forall steps :: CameBy(s0, steps, s, cfg) ==> Arrivals(steps) == s.h.pushed + InMainsHand(s.m.main)
  {
    InvReachable(s0, s, cfg);
    forall steps | CameBy(s0, steps, s, cfg)
      ensures Arrivals(steps) == s.h.pushed + InMainsHand(s.m.main)
    {
      IntakeRun(s0, steps, cfg);
    }
  }

  lemma SemaphoresCount(s0: State, s: State, cfg: Config)
    requires Reachable(s0, s, cfg)
    ensures cfg.bufferSize == s.m.emptySem + (if s.m.main.LockQueueM? || s.m.main.PushM? then 1 else 0)
                              + s.m.queue.size + Count(s.m.offices, Unposted)
    ensures s.m.queue.size == s.m.fullSem + (if s.m.main.UnlockQueueM? || s.m.main.PostFull? then 1 else 0)
                              + Count(s.m.offices, Claimed)
  {
    InvReachable(s0, s, cfg);
  }

  /** No office pops an empty queue or follows a NULL account; the main thread never
      pushes to a full queue, so the ring keeps its first size. */
  lemma NoUndefinedStep(s0: State, s: State, cfg: Config)
    requires Reachable(s0, s, cfg)
    ensures forall i :: 0 <= i < cfg.offices ==>
              !s.m.offices[i].pc.Fault? && (s.m.offices[i].pc.Pop? ==> s.m.queue.size > 0)
    ensures s.m.main.PushM? ==> s.m.queue.size < |s.m.queue.cells|
    ensures |s.m.queue.cells| == cfg.bufferSize
    ensures s.m.queue.rear == (s.m.queue.front + s.m.queue.size - 1) % cfg.bufferSize
  {
    InvReachable(s0, s, cfg);
    Rings.RearIsModular(s.m.queue);
    forall i | 0 <= i < cfg.offices
      ensures !s.m.offices[i].pc.Fault? && (s.m.offices[i].pc.Pop? ==> s.m.queue.size > 0)
    {
      assert Knows(s.m.bank, s.m.offices[i], cfg);
      if s.m.offices[i].pc.Pop? {
        PopFindsItem(s.m, i, cfg);
      }
    }
  }

  /** When the first cancel comes next everything that ever arrived has been answered,
      exactly as the atomic bank would, and memory holds the atomic bank's ledger. */
  lemma DrainedBeforeCancel(s0: State, s: State, cfg: Config)
    requires Reachable(s0, s, cfg) && s.m.main.Cancelling?
    ensures s.h.popped == s.h.pushed
    ensures forall steps :: CameBy(s0, steps, s, cfg) ==> Arrivals(steps) == s.h.pushed
    ensures forall t :: t in s.h.replies <==> 0 <= t < |s.h.pushed|
    ensures Explains(s.h.events, Concrete(s0.m, cfg), s.h, cfg)
    ensures Replay(cfg.hash, Concrete(s0.m, cfg), s.h.events) == Concrete(s.m, cfg)
  {
    hide CameBy, Reachable, Arrivals;
    InvReachable(s0, s, cfg);
    AllAnswered(s, cfg);
    Linearizable(s0, s, cfg);
    DeliveredOnceInOrder(s0, s, cfg);
  }

  /** Whatever requests arrive, the server can serve them all: some run reads exactly
      these, answers every one and waits for the next. */
  lemma EveryRequestServed(s0: State, reqs: seq<Request>, cfg: Config) returns (steps: seq<Step>)
    requires Initial(s0, cfg) && forall k :: 0 <= k < |reqs| ==> InRange(reqs[k], cfg.accounts)
    ensures ValidRun(s0, steps, cfg) && Arrivals(steps) == reqs
    ensures var s := Final(s0, steps, cfg);
            && s.m.main.Reading? && Resting(s.m) && s.h.popped == reqs
            && forall t :: t in s.h.replies <==> 0 <= t < |reqs|
  {
    hide CoreInv, LinearInv, DrainInv, ShutdownInv, SomeOfficeSteps, Initial, ValidRun, Final, QueueFits;
    StartsReading(s0, cfg);
    var start := RunOffices(s0, cfg);
    QuietReadingIsIdle(Final(s0, start, cfg).m, cfg);
    var serve := ServeAll(Final(s0, start, cfg), reqs, cfg);
    steps := start + serve;
    RunsConnect(s0, start, serve, cfg);
    ArrivalsConnect(start, serve);
    var s := Final(s0, steps, cfg);
    assert Reachable(s0, s, cfg) && CameBy(s0, steps, s, cfg);
    IdleHasAnswered(s0, s, cfg);
  }

  lemma StartsReading(s0: State, cfg: Config)
    requires Initial(s0, cfg)
    ensures CoreInv(s0.m, cfg) && s0.m.main.Reading?
  {
    CoreInitially(s0.m, cfg);
  }

  lemma IdleHasAnswered(s0: State, s: State, cfg: Config)
    requires Reachable(s0, s, cfg) && StateFits(s, cfg) && Idle(s.m, cfg)
    ensures forall steps :: CameBy(s0, steps, s, cfg) ==> Arrivals(steps) == s.h.popped
    ensures forall t :: t in s.h.replies <==> 0 <= t < |s.h.popped|
  {
    hide CoreInv, LinearInv, DrainInv, ShutdownInv, Initial, CameBy, Reachable;
    InvReachable(s0, s, cfg);
    DeliveredOnceInOrder(s0, s, cfg);
    RestHoldsNoMutex(s.m, cfg);
    assert Rings.Contents(s.m.queue) == [];
    assert forall i, t: nat :: !Carries(s.m, s.h, i, t);
  }

  // ----- locks and logins -----

  lemma LockDiscipline(s0: State, s: State, cfg: Config)
    requires Reachable(s0, s, cfg)
    ensures forall a, i :: 0 <= a < cfg.accounts && 0 <= i < cfg.offices ==>
              (s.m.bank.locks[a] == Some(i) <==> Holds(s.m.offices[i], a))
    ensures forall a, i, j :: 0 <= a < cfg.accounts && 0 <= i < cfg.offices && 0 <= j < cfg.offices ==>
              Holds(s.m.offices[i], a) && Holds(s.m.offices[j], a) ==> i == j
    ensures forall a, i :: 0 <= a < cfg.accounts && 0 <= i < cfg.offices && s.m.bank.locks[a] == Some(i) ==>
              OnAccounts(s.m.offices[i].pc)
  {
    InvReachable(s0, s, cfg);
    forall a, i, j | 0 <= a < cfg.accounts && 0 <= i < cfg.offices && 0 <= j < cfg.offices
                     && Holds(s.m.offices[i], a) && Holds(s.m.offices[j], a)
      ensures i == j
    {
      assert s.m.bank.locks[a] == Some(i) && s.m.bank.locks[a] == Some(j);
    }
  }

  /** At every step an office writes only account entries whose mutex it has locked, and
      its step would be the same whatever the entries it has not locked contained. */
  lemma ExclusiveAccess(s0: State, s: State, other: Bank, i: nat, salt: Text, cfg: Config)
    requires Reachable(s0, s, cfg) && StateFits(s, cfg) && OfficeEnabled(s.m, i, cfg)
    requires OnAccounts(s.m.offices[i].pc)
    requires BankFits(other, cfg) && other.locks == s.m.bank.locks
    requires forall a :: 0 <= a < cfg.accounts && s.m.bank.locks[a] == Some(i) ==> SameEntry(s.m.bank, other, a)
    ensures BankFits(OfficeApply(s.m, i, salt, cfg).bank, cfg)
    ensures forall a :: 0 <= a < cfg.accounts && s.m.bank.locks[a] != Some(i) ==>
              SameEntry(s.m.bank, OfficeApply(s.m, i, salt, cfg).bank, a)
    ensures SameEffect(BankStep(s.m.bank, i, s.m.offices[i], salt, cfg),
                       BankStep(other, i, s.m.offices[i], salt, cfg), s.m.offices[i], cfg)
  {
    hide BankStep, QueueFits, LinearInv, DeliveryInv, DrainInv, ShutdownInv;
    InvReachable(s0, s, cfg);
    assert forall a :: 0 <= a < cfg.accounts ==> (s.m.bank.locks[a] == Some(i) <==> Holds(s.m.offices[i], a));
    WritesOnlyHeld(s.m.bank, i, s.m.offices[i], salt, cfg);
    ReadsOnlyHeld(s.m.bank, other, i, s.m.offices[i], salt, cfg);
  }

  /** The step in which a request takes effect is taken between its pop and its reply,
      with the mutexes of all accounts that it is about (of the sender's, when the login
      fails there). */
  lemma EffectUnderLocks(s0: State, s: State, i: nat, salt: Text, cfg: Config)
    requires Reachable(s0, s, cfg) && StateFits(s, cfg) && OfficeEnabled(s.m, i, cfg)
    requires Next(s, OfficeStep(i, salt), cfg).h.events != s.h.events
    ensures var s', o := Next(s, OfficeStep(i, salt), cfg), s.m.offices[i];
            && InHand(o.pc) && !o.pc.Replying? && s.h.ticket[i] !in s.h.replies
            && |s'.h.events| == |s.h.events| + 1 && s'.h.events[|s.h.events|].ticket == s.h.ticket[i]
            && match o.pc
               case Validating(_) => s.m.bank.locks[o.req.id] == Some(i)
               case Creating(_) => s.m.bank.locks[o.req.op.newId] == Some(i)
               case Querying(_) => s.m.bank.locks[o.req.id] == Some(i)
               case Transferring(_) =>
                 s.m.bank.locks[o.req.id] == Some(i) && s.m.bank.locks[o.req.op.destId] == Some(i)
               case _ => o.req.op.Shutdown?
  {
    hide QueueFits, Replays, RealTime, EventsMatch, DecisionsStand, DrainInv, ShutdownInv, KnowledgeInv, SyncInv;
    InvReachable(s0, s, cfg);
    var o := s.m.offices[i];
    assert forall a :: 0 <= a < cfg.accounts ==> (s.m.bank.locks[a] == Some(i) <==> Holds(o, a));
  }

  lemma InvTable(s: State, l0: Ledger, cfg: Config)
    requires Inv(s, l0, cfg)
    ensures TableOk(s.m.bank)
  {
  }

  /** Every account is stored under its id. Whatever happens between two states of a run,
      an account that existed still does, with the same id, salt and hash; a login that
      passed still passes. */
  lemma LoginsStayValid(s0: State, s: State, later: State, req: Request, cfg: Config)
    requires Reachable(s0, s, cfg) && StateFits(s, cfg) && ReachedFrom(s, later, cfg)
    ensures TableOk(s.m.bank) && TableOk(later.m.bank)
    ensures Grows(s.m.bank, later.m.bank)
    ensures LoggedIn(s.m.bank, req, cfg) ==> LoggedIn(later.m.bank, req, cfg)
  {
    hide Inv, Reachable, Grows, LoggedIn, QueueFits;
    InvReachable(s0, s, cfg);
    InitialLedger(s0, s, cfg);
    var steps :| ValidRun(s, steps, cfg) && Final(s, steps, cfg) == later;
    InvRun(s, steps, Concrete(s0.m, cfg), cfg);
    InvTable(s, Concrete(s0.m, cfg), cfg);
    InvTable(later, Concrete(s0.m, cfg), cfg);
    if LoggedIn(s.m.bank, req, cfg) {
      LoginStays(s.m.bank, later.m.bank, req, cfg);
    }
  }

  /** So an office past its validation acts for a client whose login is valid now, and
      the accounts it looks up without a check exist. */
  lemma HandlersStayLoggedIn(s0: State, s: State, i: nat, cfg: Config)
    requires Reachable(s0, s, cfg) && i < cfg.offices
    requires StateFits(s, cfg)
    requires s.m.offices[i].pc.Creating? || s.m.offices[i].pc.Querying? || s.m.offices[i].pc.Transferring?
    ensures TableOk(s.m.bank) && LoggedIn(s.m.bank, s.m.offices[i].req, cfg)
    ensures s.m.bank.accounts[s.m.offices[i].req.id].id == s.m.offices[i].req.id
  {
    InvReachable(s0, s, cfg);
    assert Knows(s.m.bank, s.m.offices[i], cfg);
  }

  // ----- progress -----

  lemma DeadlockFree(s0: State, s: State, cfg: Config)
    requires Reachable(s0, s, cfg)
    ensures StateFits(s, cfg)
    ensures || SomeOfficeSteps(s.m, cfg)
            || (MainHoldsMutex(s.m.main) && MainEnabled(s.m, NoInput, cfg))
            || (&& Resting(s.m) && s.m.mutex.None?
                && (forall a :: 0 <= a < cfg.accounts ==> s.m.bank.locks[a].None?)
                && (s.m.main.Reading? || s.m.main.Cancelling? || MainEnabled(s.m, NoInput, cfg)))
  {
    InvReachable(s0, s, cfg);
    NoDeadlock(s.m, cfg);
    if Resting(s.m) {
      RestHoldsNoMutex(s.m, cfg);
    }
  }

  /** The input has ended, or a shutdown has closed it, or was replied to as accepted. */
  ghost predicate MustStop(s: State) {
    || s.m.inputClosed || Draining(s.m.main)
    || exists t :: t in s.h.replies && Accepted(s.h.replies[t])
  }

  lemma MustStopStops(s: State, l0: Ledger, cfg: Config)
    requires Inv(s, l0, cfg) && MustStop(s)
    ensures Stopping(s.m)
  {
  }

  /** From then on the cancellation of the offices stays within reach, whatever has been
      pushed and however far it got, and without anything more to read. */
  lemma ShutdownCompletes(s0: State, s: State, cfg: Config) returns (finish: seq<Step>)
    requires Reachable(s0, s, cfg) && MustStop(s)
    ensures StateFits(s, cfg) && Arrivals(finish) == []
    ensures ValidRun(s, finish, cfg) && Final(s, finish, cfg).m.main.Cancelling?
  {
    hide CoreInv, DeliveryInv, LinearInv, DrainInv, ShutdownInv, ValidRun, Final, MustStop, Stopping;
    InvReachable(s0, s, cfg);
    MustStopStops(s, Concrete(s0.m, cfg), cfg);
    finish := DrainCanFinish(s, cfg);
  }

  /** After the end of input the offices take at most `Work` further steps, whatever the
      schedule; while work is left, one of them or the main thread with the queue mutex
      can step. */
  lemma DrainTerminates(s0: State, s: State, later: seq<Step>, cfg: Config)
    requires Reachable(s0, s, cfg) && Draining(s.m.main)
    requires StateFits(s, cfg) && ValidRun(s, later, cfg)
    ensures OfficeSteps(later) + Work(Final(s, later, cfg).m, cfg) <= Work(s.m, cfg)
    ensures Work(s.m, cfg) > 0 ==> SomeOfficeSteps(s.m, cfg) || MainHoldsMutex(s.m.main)
  {
    hide Reachable, LinearInv, DrainInv, ShutdownInv, DeliveryInv, Work, Cost, ValidRun, Final, QueueFits;
    InvReachable(s0, s, cfg);
    RunWorkBound(s, later, cfg);
    DrainPushesNothing(s, later, cfg);
    CostAdds(0, 0, cfg);
    NoWorkMeansRest(s.m, cfg);
    NoDeadlock(s.m, cfg);
  }

  /** And when no work is left, no schedule keeps the server from the cancellation: only
      the main thread can step, it always can, and it does so at most
      2 * offices + 5 times. */
  lemma DrainEnds(s0: State, s: State, later: seq<Step>, cfg: Config)
    requires Reachable(s0, s, cfg) && Draining(s.m.main)
    requires StateFits(s, cfg) && ValidRun(s, later, cfg) && Work(s.m, cfg) == 0
    ensures |later| <= 2 * cfg.offices + 5
    ensures later == seq(|later|, k => MainStep(NoInput))
    ensures var f := Final(s, later, cfg);
            f.m.main.Cancelling? || MainEnabled(f.m, NoInput, cfg)
  {
    hide Reachable, LinearInv, DrainInv, ShutdownInv, DeliveryInv, Work, CoreInv, ValidRun, Final, QueueFits;
    InvReachable(s0, s, cfg);
    NoWorkMeansRest(s.m, cfg);
    RestingDrainBound(s, later, cfg);
  }

  lemma {:induction false} ReachableAt(s0: State, e: Execution, n: nat, cfg: Config)
    requires Initial(s0, cfg) && IsExecution(e, cfg) && Reachable(s0, e.state(0), cfg)
    ensures StateFits(e.state(n), cfg) && Reachable(s0, e.state(n), cfg)
  {
    hide Initial, ReachedFrom, Next, Enabled, StateFits;
    assert StepsAt(e, n, cfg);
    if n > 0 {
      ReachableAt(s0, e, n - 1, cfg);
      assert StepsAt(e, n - 1, cfg);
      if e.pick(n - 1).Some? {
        ReachesNext(s0, e.state(n - 1), e.pick(n - 1).value, cfg);
      }
    }
  }

  lemma {:induction false} HandedOnAt(e: Execution, n: nat, cfg: Config)
    requires StopExecution(e, cfg)
    ensures e.state(n).h.pushed + InMainsHand(e.state(n).m.main) ==
            e.state(0).h.pushed + InMainsHand(e.state(0).m.main)
  {
    hide CoreInv, Next, Enabled, StateFits, InMainsHand;
    if n > 0 {
      HandedOnAt(e, n - 1, cfg);
      StopGoesOnAt(e, n - 1, cfg);
      assert StepsAt(e, n - 1, cfg);
      if e.pick(n - 1).Some? {
        var step := e.pick(n - 1).value;
        IntakeStep(e.state(n - 1), step, cfg);
        assert [step][1..] == [];
      }
    }
  }

  /** Everything that had arrived at the start has been answered at moment n. */
  ghost predicate AnsweredAll(s0: State, e: Execution, n: nat, cfg: Config) {
    var s := e.state(n);
    && Reachable(s0, s, cfg) && s.m.main.Cancelling? && StateFits(s0, cfg)
    && s.h.popped == s.h.pushed == e.state(0).h.pushed + InMainsHand(e.state(0).m.main)
    && (forall steps :: CameBy(s0, steps, e.state(0), cfg) ==> Arrivals(steps) == s.h.pushed)
    && (forall t :: t in s.h.replies <==> 0 <= t < |s.h.pushed|)
    && Explains(s.h.events, Concrete(s0.m, cfg), s.h, cfg)
  }

  /** Once a shutdown has been accepted and no more requests arrive, every strongly fair
      schedule comes to the cancellation of the offices, with exactly the requests that
      had arrived answered, as the atomic bank would. */
  lemma FairStopAnswersAll(s0: State, e: Execution, cfg: Config) returns (n: nat)
    requires Initial(s0, cfg) && IsExecution(e, cfg) && Fair(e, cfg) && NothingArrives(e)
    requires Reachable(s0, e.state(0), cfg) && MustStop(e.state(0))
    ensures AnsweredAll(s0, e, n, cfg)
  {
    hide Initial, Reachable, CoreInv, DeliveryInv, LinearInv, DrainInv, ShutdownInv, IsExecution, NothingArrives;
    hide Explains, Fair, MustStop, Stopping, CameBy, Arrivals;
    ReachableAt(s0, e, 0, cfg);
    InvReachable(s0, e.state(0), cfg);
    MustStopStops(e.state(0), Concrete(s0.m, cfg), cfg);
    n := FairStopEnds(e, cfg);
    ReachableAt(s0, e, n, cfg);
    HandedOnAt(e, n, cfg);
    DeliveredOnceInOrder(s0, e.state(0), cfg);
    DrainedBeforeCancel(s0, e.state(n), cfg);
  }

  /** When the main thread has begun to drain it reads nothing anyway. */
  lemma {:induction false} DrainReadsNothingAt(e: Execution, n: nat, cfg: Config)
    requires IsExecution(e, cfg) && Draining(e.state(0).m.main)
    ensures Draining(e.state(n).m.main) && (e.pick(n).Some? ==> !IsArrival(e.pick(n).value))
  {
    hide StateFits;
    assert StepsAt(e, n, cfg);
    if n > 0 {
      DrainReadsNothingAt(e, n - 1, cfg);
      assert StepsAt(e, n - 1, cfg);
      if e.pick(n - 1).Some? {
        DrainGoesOn(e.state(n - 1), e.pick(n - 1).value, cfg);
      }
    }
  }

  lemma FairDrainAnswersAll(s0: State, e: Execution, cfg: Config) returns (n: nat)
    requires Initial(s0, cfg) && IsExecution(e, cfg) && Fair(e, cfg)
    requires Reachable(s0, e.state(0), cfg) && Draining(e.state(0).m.main)
    ensures AnsweredAll(s0, e, n, cfg)
  {
    hide Initial, Reachable, IsExecution, Fair, AnsweredAll;
    forall k: nat | e.pick(k).Some?
      ensures !IsArrival(e.pick(k).value)
    {
      DrainReadsNothingAt(e, k, cfg);
    }
    n := FairStopAnswersAll(s0, e, cfg);
  }

  /** Such fair schedules exist. */
  lemma FairScheduleExists(s0: State, s: State, cfg: Config) returns (e: Execution)
    requires Reachable(s0, s, cfg) && MustStop(s)
    ensures e.state(0) == s && IsExecution(e, cfg) && Fair(e, cfg) && NothingArrives(e)
  {
    hide Reachable, CoreInv, DeliveryInv, LinearInv, DrainInv, ShutdownInv, IsExecution, Fair, MustStop, Stopping;
    hide NothingArrives;
    InvReachable(s0, s, cfg);
    InitialLedger(s0, s, cfg);
    MustStopStops(s, Concrete(s0.m, cfg), cfg);
    e := FairStopExists(s, cfg);
  }

  /** A whole run costs the offices at most their start and a fixed number of steps for
      each request pushed. */
  lemma WholeRunBound(s0: State, steps: seq<Step>, cfg: Config)
    requires Initial(s0, cfg) && ValidRun(s0, steps, cfg)
    ensures OfficeSteps(steps) <= cfg.offices + Cost(|Final(s0, steps, cfg).h.pushed|, cfg)
  {
    hide Cost, QueueFits;
    RunWorkBound(s0, steps, cfg);
    CostAdds(0, 0, cfg);
    RanksAtStart(s0.m.offices, cfg);
  }

  lemma {:induction false} RanksAtStart(offices: seq<Office>, cfg: Config)
    requires forall i :: 0 <= i < |offices| ==> offices[i].pc == Start
    ensures RankSum(offices, cfg) == |offices|
  {
    if offices != [] {
      RanksAtStart(offices[..|offices| - 1], cfg);
    }
  }

  lemma DrainGoesOn(s: State, step: Step, cfg: Config)
    requires StateFits(s, cfg) && Enabled(s.m, step, cfg) && Draining(s.m.main)
    ensures Draining(Next(s, step, cfg).m.main) && Next(s, step, cfg).h.pushed == s.h.pushed
  {
    hide BankStep, QueueFits;
  }

  lemma {:induction false} DrainPushesNothing(s: State, steps: seq<Step>, cfg: Config)
    requires StateFits(s, cfg) && ValidRun(s, steps, cfg) && Draining(s.m.main)
    ensures Final(s, steps, cfg).h.pushed == s.h.pushed
    decreases |steps|
  {
    hide Next, StateFits, Enabled;
    if steps != [] {
      DrainGoesOn(s, steps[0], cfg);
      DrainPushesNothing(Next(s, steps[0], cfg), steps[1..], cfg);
    }
  }

  // ----- money -----

  ghost predicate ClientsCheckedOpenings(h: History) {
    forall k :: 0 <= k < |h.pushed| ==> BoundedOpening(h.pushed[k])
  }

  /** Openings that all the clients have checked are modest, accepted or not. */
  lemma CheckedOpeningsAreModest(s0: State, s: State, cfg: Config)
    requires Reachable(s0, s, cfg) && ClientsCheckedOpenings(s.h)
    ensures ModestOpenings(s.h.events)
  {
    hide Reachable, QueueFits, CoreInv, DrainInv, ShutdownInv, RealTime, DecisionsStand;
    InvReachable(s0, s, cfg);
    forall p | 0 <= p < |s.h.events|
      ensures Opened(s.h.events[p].req, s.h.events[p].reply.code) <= MAX_BALANCE
    {
      assert s.h.events[p].req == s.h.pushed[s.h.events[p].ticket];
    }
  }

  lemma AbstractMoney(s0: State, s: State, cfg: Config)
    requires Reachable(s0, s, cfg) && ModestOpenings(s.h.events)
    ensures StateFits(s, cfg) && CoreInv(s.m, cfg)
    ensures Bounded(Abstract(s.m, cfg)) && Total(Abstract(s.m, cfg)) == OpenedBy(s.h.events)
  {
    hide Reachable, QueueFits, CoreInv, DeliveryInv, DrainInv, ShutdownInv, RealTime, DecisionsStand, ModestOpenings;
    InvReachable(s0, s, cfg);
    InitialLedger(s0, s, cfg);
    AdminOpensEmpty(Concrete(s0.m, cfg));
    ReplayConserves(cfg.hash, Concrete(s0.m, cfg), s.h.events);
  }

  lemma {:induction false} AdminOpensEmpty(l: Ledger)
    requires forall a :: 0 <= a < |l| ==> BalanceAt(l, a) == 0
    ensures Total(l) == 0
  {
    if l != [] {
      var rest := l[..|l| - 1];
      forall a | 0 <= a < |rest|
        ensures BalanceAt(rest, a) == 0
      {
        assert BalanceAt(l, a) == 0;
      }
      AdminOpensEmpty(rest);
    }
  }

  /** The account of the money in every reachable state, whatever the requests: what is
      in memory, what is between a debit and its credit and what wrapped credits have
      destroyed add up to the opening balances of the accounts created so far. So money
      is conserved exactly as long as no credit has wrapped. */
  lemma MoneyExact(s0: State, s: State, cfg: Config)
    requires Reachable(s0, s, cfg)
    ensures StateFits(s0, cfg) && StateFits(s, cfg) && EventsFit(s.h.events, cfg.accounts)
    ensures var lost := LostBy(cfg.hash, Concrete(s0.m, cfg), s.h.events);
            var held := Total(Concrete(s.m, cfg)) + DebitSum(s.m.offices);
            && held + lost == OpenedBy(s.h.events)
            && (held == OpenedBy(s.h.events) <==> lost == 0)
  {
    hide Reachable, Legal, Replay, QueueFits, CoreInv, DeliveryInv, DrainInv, ShutdownInv, RealTime, DecisionsStand;
    InvReachable(s0, s, cfg);
    InitialLedger(s0, s, cfg);
    AdminOpensEmpty(Concrete(s0.m, cfg));
    ReplayTotal(cfg.hash, Concrete(s0.m, cfg), s.h.events);
    TotalSplits(s.m, cfg);
  }

  /** As long as only openings in range were accepted nothing is lost. */
  lemma MoneyConserved(s0: State, s: State, cfg: Config)
    requires Reachable(s0, s, cfg) && ModestOpenings(s.h.events)
    ensures StateFits(s, cfg)
    ensures Total(Concrete(s.m, cfg)) + DebitSum(s.m.offices) == OpenedBy(s.h.events)
  {
    AbstractMoney(s0, s, cfg);
    TotalSplits(s.m, cfg);
  }

  /** When the first cancel comes next no debit is open: all the money is in memory, but
      for what wrapped credits have destroyed. */
  lemma MoneyAtTheEnd(s0: State, s: State, cfg: Config)
    requires Reachable(s0, s, cfg) && s.m.main.Cancelling?
    ensures StateFits(s0, cfg) && StateFits(s, cfg) && EventsFit(s.h.events, cfg.accounts)
    ensures DebitSum(s.m.offices) == 0
    ensures Total(Concrete(s.m, cfg)) + LostBy(cfg.hash, Concrete(s0.m, cfg), s.h.events) == OpenedBy(s.h.events)
  {
    hide Reachable, QueueFits, CoreInv, LinearInv, ShutdownInv, Total, LostBy, OpenedBy;
    MoneyExact(s0, s, cfg);
    InvReachable(s0, s, cfg);
    AllAnswered(s, cfg);
    NothingInFlight(s.m.offices);
  }

  lemma {:induction false} NothingInFlight(offices: seq<Office>)
    requires forall i :: 0 <= i < |offices| ==> AtRest(offices[i].pc)
    ensures DebitSum(offices) == 0
  {
    if offices != [] {
      NothingInFlight(offices[..|offices| - 1]);
    }
  }

  /** As long as only openings in range were accepted, every balance is in 0..MAX_BALANCE
      and no 32-bit operation wraps. */
  lemma BalancesBounded(s0: State, s: State, cfg: Config)
    requires Reachable(s0, s, cfg) && ModestOpenings(s.h.events)
    ensures StateFits(s, cfg) && BalancesInRange(s.m, cfg)
    ensures forall i :: 0 <= i < cfg.offices ==> ExactArithmetic(s.m.bank, s.m.offices[i])
  {
    AbstractMoney(s0, s, cfg);
    MemoryBounded(s.m, cfg);
    forall i | 0 <= i < cfg.offices
      ensures ExactArithmetic(s.m.bank, s.m.offices[i])
    {
      ArithmeticIsExact(s.m, i, cfg);
    }
  }

  /** The same condition is the exact one for the ledgers that explain the state. */
  lemma LedgersBoundedExactly(s0: State, s: State, cfg: Config)
    requires Reachable(s0, s, cfg)
    ensures StateFits(s0, cfg) && EventsFit(s.h.events, cfg.accounts)
    ensures BoundedThroughout(cfg.hash, Concrete(s0.m, cfg), s.h.events) <==> ModestOpenings(s.h.events)
  {
    hide Reachable, Replay, QueueFits, CoreInv, DeliveryInv, DrainInv, ShutdownInv, RealTime, DecisionsStand;
    hide BoundedThroughout, ModestOpenings;
    InvReachable(s0, s, cfg);
    InitialLedger(s0, s, cfg);
    ReplayBoundedExactly(cfg.hash, Concrete(s0.m, cfg), s.h.events);
  }

  /** A step appends at most one event, so events stay recorded. */
  lemma StepKeepsEvents(s: State, step: Step, cfg: Config)
    requires StateFits(s, cfg) && Enabled(s.m, step, cfg)
    ensures var s' := Next(s, step, cfg);
            |s.h.events| <= |s'.h.events| && s'.h.events[..|s.h.events|] == s.h.events
  {
    hide Apply;
  }

  lemma {:induction false} EarlierModest(s: State, steps: seq<Step>, n: nat, cfg: Config)
    requires StateFits(s, cfg) && ValidRun(s, steps, cfg) && ModestOpenings(Final(s, steps, cfg).h.events)
    ensures ModestOpenings(StateAt(s, steps, n, cfg).h.events)
    decreases |steps|
  {
    hide Next, Enabled, StateFits, Opened;
    if steps != [] {
      var s' := Next(s, steps[0], cfg);
      EarlierModest(s', steps[1..], if n > 0 then n - 1 else 0, cfg);
      StepKeepsEvents(s, steps[0], cfg);
      if n == 0 {
        forall p | 0 <= p < |s.h.events|
          ensures Opened(s.h.events[p].req, s.h.events[p].reply.code) <= MAX_BALANCE
        {
          assert s'.h.events[..|s.h.events|][p] == s'.h.events[p];
        }
      }
    }
  }

  lemma AccountOpeningShows(b: Bank, i: nat, o: Office, salt: Text, cfg: Config)
    requires BankFits(b, cfg) && OfficeFits(o, cfg) && OnAccounts(o.pc) && Knows(b, o, cfg)
    requires BankFits(BankStep(b, i, o, salt, cfg).bank, cfg) && BankStep(b, i, o, salt, cfg).office.req == o.req
    ensures var e := BankStep(b, i, o, salt, cfg);
            CommitsTo(o, e.office) && o.req.op.CreateAccount? && Decision(e.bank, e.office).code == Ok ==>
              e.bank.used[o.req.op.newId] && e.bank.accounts[o.req.op.newId].balance == o.req.op.balance
  {
    hide TransferStep, BalanceStep;
  }

  /** An accepted opening shows in memory at the moment at which it takes effect. */
  lemma OpeningShows(s: State, step: Step, cfg: Config)
    requires StateFits(s, cfg) && CoreInv(s.m, cfg) && Enabled(s.m, step, cfg)
    requires ModestOpenings(s.h.events) && BalancesInRange(Next(s, step, cfg).m, cfg)
    ensures ModestOpenings(Next(s, step, cfg).h.events)
  {
    hide QueueFits, SyncInv, LockInv, BankStep;
    if step.OfficeStep? {
      var i := step.office;
      assert Knows(s.m.bank, s.m.offices[i], cfg);
      if OnAccounts(s.m.offices[i].pc) {
        BankStepFits(s.m.bank, i, s.m.offices[i], step.salt, cfg);
        AccountOpeningShows(s.m.bank, i, s.m.offices[i], step.salt, cfg);
      }
    }
  }

  /** Memory holds balances in 0..MAX_BALANCE in every state that the run passes through. */
  ghost predicate InRangeThroughout(s: State, steps: seq<Step>, cfg: Config)
    requires StateFits(s, cfg) && ValidRun(s, steps, cfg)
  {
    forall n: nat :: BalancesInRange(StateAt(s, steps, n, cfg).m, cfg)
  }

  /** Over a whole run: memory holds balances in 0..MAX_BALANCE in every state that the run
      passes through, exactly when the run accepts no opening above MAX_BALANCE. */
  lemma BalancesBoundedExactly(s0: State, steps: seq<Step>, cfg: Config)
    requires Initial(s0, cfg) && ValidRun(s0, steps, cfg)
    ensures InRangeThroughout(s0, steps, cfg) <==> ModestOpenings(Final(s0, steps, cfg).h.events)
  {
    hide Initial, BalancesInRange, ModestOpenings, ValidRun, Final, Fits;
    if ModestOpenings(Final(s0, steps, cfg).h.events) {
      forall n: nat
        ensures BalancesInRange(StateAt(s0, steps, n, cfg).m, cfg)
      {
        StateAtReached(s0, steps, n, cfg);
        EarlierModest(s0, steps, n, cfg);
        BalancesBounded(s0, StateAt(s0, steps, n, cfg), cfg);
      }
    } else if InRangeThroughout(s0, steps, cfg) {
      BoundedRunIsModest(s0, steps, |steps|, cfg);
      StateAtFollowsRun(s0, steps, |steps|, cfg);
    }
  }

  lemma {:induction false} BoundedRunIsModest(s0: State, steps: seq<Step>, n: nat, cfg: Config)
    requires Initial(s0, cfg) && ValidRun(s0, steps, cfg) && n <= |steps|
    requires InRangeThroughout(s0, steps, cfg)
    ensures ModestOpenings(StateAt(s0, steps, n, cfg).h.events)
    decreases n
  {
    hide BalancesInRange, ValidRun, CoreInv, LinearInv, DrainInv, ShutdownInv, Next;
    if n > 0 {
      var s := StateAt(s0, steps, n - 1, cfg);
      BoundedRunIsModest(s0, steps, n - 1, cfg);
      StateAtFollowsRun(s0, steps, n - 1, cfg);
      StateAtReached(s0, steps, n - 1, cfg);
      InvReachable(s0, s, cfg);
      OpeningShows(s, steps[n - 1], cfg);
    }
  }

  // ----- each account, each answer -----

  lemma NoFlightNoDifference(m: Machine, a: nat, cfg: Config)
    requires Fits(m, cfg) && a < cfg.accounts
    ensures (forall i :: 0 <= i < cfg.offices ==> InFlight(m.offices[i], a) == 0) ==>
              BalanceAt(Concrete(m, cfg), a) == BalanceAt(Abstract(m, cfg), a)
  {
    hide QueueFits;
  }

  /** Every account holds what the accepted openings and transfers come to, modulo 2^32,
      and exactly that when no opening above MAX_BALANCE was accepted; in memory too,
      unless a debit of this account is still to be credited. */
  lemma AccountsExact(s0: State, s: State, a: nat, cfg: Config)
    requires Reachable(s0, s, cfg) && a < cfg.accounts
    ensures StateFits(s, cfg)
    ensures BalanceAt(Abstract(s.m, cfg), a) == Statement(s.h.events, a) % TWO_32
    ensures ModestOpenings(s.h.events) ==> BalanceAt(Abstract(s.m, cfg), a) == Statement(s.h.events, a)
    ensures (forall i :: 0 <= i < cfg.offices ==> InFlight(s.m.offices[i], a) == 0) ==>
              BalanceAt(Concrete(s.m, cfg), a) == BalanceAt(Abstract(s.m, cfg), a)
  {
    hide Reachable, Legal, Statement, ModestOpenings, QueueFits, DeliveryInv, DrainInv, ShutdownInv;
    hide RealTime, DecisionsStand, CoreInv, EventsMatch, Replay, Abstract, Concrete, WellFormed, BalanceAt, InFlight;
    InvReachable(s0, s, cfg);
    InitialLedger(s0, s, cfg);
    NoFlightNoDifference(s.m, a, cfg);
    StatementIsExact(cfg.hash, Concrete(s0.m, cfg), s.h.events, a);
  }

  /** A reply to a balance query or an accepted transfer reports the sender's statement at
      the moment at which the request took effect. */
  lemma ReportsExact(s0: State, s: State, t: nat, cfg: Config) returns (p: nat)
    requires Reachable(s0, s, cfg) && t in s.h.replies
    ensures ForTicket(s.h.events, p, t) && t < |s.h.popped|
    ensures s.h.events[p].req == s.h.popped[t] && s.h.events[p].reply == s.h.replies[t]
    ensures ReportsBalance(s.h.popped[t], s.h.replies[t]) ==>
              s.h.replies[t].payload == Statement(s.h.events[..p + 1], s.h.popped[t].id) % TWO_32
  {
    hide Reachable, Legal, Replay, Statement, ReportsBalance, QueueFits, CoreInv, DeliveryInv, DrainInv, ShutdownInv;
    hide RealTime, DecisionsStand;
    InvReachable(s0, s, cfg);
    InitialLedger(s0, s, cfg);
    p :| ForTicket(s.h.events, p, t);
    if ReportsBalance(s.h.popped[t], s.h.replies[t]) {
      ReportIsStatement(cfg.hash, Concrete(s0.m, cfg), s.h.events, p);
    }
  }

  /** Once an account was opened, exactly the passwords that hash like the one it was
      opened with log in to it, in every later state. */
  lemma OpenedAccountLogsIn(s0: State, s: State, p: nat, login: Request, cfg: Config)
    requires Reachable(s0, s, cfg) && StateFits(s, cfg) && p < |s.h.events|
    requires s.h.events[p].req.op.CreateAccount? && s.h.events[p].reply.code == Ok
    requires login.id == s.h.events[p].req.op.newId
    ensures LoggedIn(s.m.bank, login, cfg) <==>
            cfg.hash(login.password, s.h.events[p].salt) ==
            cfg.hash(s.h.events[p].req.op.newPassword, s.h.events[p].salt)
  {
    hide Reachable, Legal, Replay, Exec, LoggedIn, Mirrors, QueueFits, CoreInv, DeliveryInv, DrainInv, ShutdownInv;
    hide RealTime, DecisionsStand;
    InvReachable(s0, s, cfg);
    InitialLedger(s0, s, cfg);
    var l0, e := Concrete(s0.m, cfg), s.h.events[p];
    LegalAt(cfg.hash, l0, s.h.events, p);
    ReplayNext(cfg.hash, l0, s.h.events, p);
    OpeningExactly(cfg.hash, Replay(cfg.hash, l0, s.h.events[..p]), e.req, e.salt, e.activeOffices);
    ReplayExtends(cfg.hash, l0, s.h.events, p + 1);
    assert Authentic(cfg.hash, Replay(cfg.hash, l0, s.h.events[..p + 1]), login) <==>
           Authentic(cfg.hash, Abstract(s.m, cfg), login);
    AbstractMirrors(s.m, cfg);
    MirroredLogin(Abstract(s.m, cfg), s.m.bank, login, cfg);
  }

  // ----- shutdown -----

  /** Only the logged-in administrator's shutdown is accepted. */
  lemma AcceptedEvent(hash: Hasher, l: Ledger, events: seq<Event>, p: nat)
    requires EventsFit(events, |l|) && Legal(hash, l, events) && WellFormed(l)
    requires p < |events| && Accepted(events[p].reply)
    ensures events[p].req.op == Shutdown && events[p].req.id == ADMIN
    ensures Authentic(hash, Replay(hash, l, events), events[p].req)
  {
    LegalAt(hash, l, events, p);
    assert Authentic(hash, Replay(hash, l, events[..p]), events[p].req);
    ReplayExtends(hash, l, events, p);
  }

  lemma MirroredLogin(l: Ledger, b: Bank, req: Request, cfg: Config)
    requires Mirrors(l, b) && req.id < |l|
    ensures LoggedIn(b, req, cfg) <==> Authentic(cfg.hash, l, req)
  {
  }

  /** An accepted shutdown came from the logged-in administrator and has closed the input;
      the number of active offices it reports lies between 1 and the number of offices. */
  lemma ShutdownReplies(s0: State, s: State, t: nat, cfg: Config)
    requires Reachable(s0, s, cfg) && t in s.h.replies && Accepted(s.h.replies[t])
    ensures 1 <= s.h.replies[t].payload <= cfg.offices && s.m.inputClosed
    ensures t < |s.h.popped| && s.h.popped[t].op == Shutdown && s.h.popped[t].id == ADMIN
    ensures LoggedIn(s.m.bank, s.h.popped[t], cfg)
  {
    hide Reachable, DrainInv, DeliveryInv, RealTime, LoggedIn, Legal, Replay, QueueFits, SyncInv, LockInv;
    InvReachable(s0, s, cfg);
    var p :| ForTicket(s.h.events, p, t);
    InitialLedger(s0, s, cfg);
    AcceptedEvent(cfg.hash, Concrete(s0.m, cfg), s.h.events, p);
    AbstractMirrors(s.m, cfg);
    MirroredLogin(Abstract(s.m, cfg), s.m.bank, s.h.events[p].req, cfg);
  }

  lemma InitialLedger(s0: State, s: State, cfg: Config)
    requires Reachable(s0, s, cfg)
    ensures StateFits(s0, cfg) && WellFormed(Concrete(s0.m, cfg)) && Bounded(Concrete(s0.m, cfg))
    ensures forall a :: 0 <= a < cfg.accounts ==> BalanceAt(Concrete(s0.m, cfg), a) == 0
  {
  }

  /** Request t was the administrator's shutdown and has been accepted. */
  predicate AcceptedShutdown(h: History, t: nat) {
    && t in h.replies && Accepted(h.replies[t])
    && t < |h.pushed| && h.pushed[t].op == Shutdown && h.pushed[t].id == ADMIN
  }

  lemma {:induction false} CutShortExactly(s: State, steps: seq<Step>, cfg: Config)
    requires StateFits(s, cfg) && ValidRun(s, steps, cfg)
    ensures Final(s, steps, cfg).h.cutShort <==> s.h.cutShort || MainStep(EmptyMessage) in steps
    decreases |steps|
  {
    hide StateFits, Apply;
    if steps != [] {
      CutShortExactly(Next(s, steps[0], cfg), steps[1..], cfg);
      assert steps == [steps[0]] + steps[1..];
    }
  }

  /** A run comes to the cancellation of the offices only after an accepted shutdown,
      unless an empty message cut its input short. */
  lemma StopsOnlyOnShutdown(s0: State, steps: seq<Step>, cfg: Config)
    requires Initial(s0, cfg) && ValidRun(s0, steps, cfg) && Final(s0, steps, cfg).m.main.Cancelling?
    ensures MainStep(EmptyMessage) in steps || exists t: nat :: AcceptedShutdown(Final(s0, steps, cfg).h, t)
  {
    hide CoreInv, LinearInv, DrainInv, ValidRun, Final;
    var s := Final(s0, steps, cfg);
    assert Reachable(s0, s, cfg);
    InvReachable(s0, s, cfg);
    CutShortExactly(s0, steps, cfg);
    if !s.h.cutShort {
      AllAnswered(s, cfg);
      assert forall i :: 0 <= i < |s.m.offices| ==> !Closes(s.m.offices[i]);
      var t :| t in s.h.replies && Accepted(s.h.replies[t]);
      ShutdownReplies(s0, s, t, cfg);
      assert AcceptedShutdown(s.h, t);
    }
  }
}
