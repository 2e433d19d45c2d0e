/** Accepted shutdown requests: the racy count they report, and that nothing but they
    and an empty message ends the input. */
module ShutdownRequests {
  import opened BankTypes
  import opened OfficeMachine
  import opened Histories
  import opened AccountLocks
  import opened HandlerKnowledge
  import opened QueueProtocol
  import opened CoreInvariant
  import opened AtomicBank
  import opened Delivery
  import opened Linearizability
  import opened Progress
  import opened Drain

  predicate Accepted(reply: Reply) {
    reply.op == OpShutdown && reply.code == Ok
  }

  predicate CountInRange(reply: Reply, cfg: Config) {
    Accepted(reply) ==> 1 <= reply.payload <= cfg.offices
  }

  /** The scan has counted at most the flags it has read, and its own one if it passed it. */
  predicate ScanSound(m: Machine) {
    forall i :: 0 <= i < |m.offices| && m.offices[i].pc.Counting? ==>
      && m.offices[i].pc.sum <= m.offices[i].pc.next
      && (i < m.offices[i].pc.next ==> m.offices[i].pc.sum >= 1)
  }

  predicate DecidedCounts(m: Machine, h: History, cfg: Config) {
    && (forall i :: 0 <= i < |m.offices| && Committed(m.offices[i].pc) ==>
          && m.offices[i].req.id < |m.bank.accounts|
          && CountInRange(Decision(m.bank, m.offices[i]), cfg))
    && (forall t :: t in h.replies ==> CountInRange(h.replies[t], cfg))
  }

  /** An office that has ended the input and is on its way to say so. */
  predicate Closes(o: Office) {
    o.pc.Counting? || (o.pc.Replying? && Accepted(o.reply))
  }

  ghost predicate ClosedByRequest(m: Machine, h: History) {
    && (Draining(m.main) ==> m.inputClosed || h.cutShort)
    && (m.inputClosed ==>
          || (exists t :: t in h.replies && Accepted(h.replies[t]))
          || (exists i :: 0 <= i < |m.offices| && Closes(m.offices[i])))
  }

  /** An office that counts or is about to accept a shutdown finds the input closed. */
  predicate FindsClosed(m: Machine, i: nat)
    requires i < |m.offices|
  {
    var o := m.offices[i];
    o.pc.Counting? || (Committed(o.pc) && o.req.id < |m.bank.accounts| && Accepted(Decision(m.bank, o))) ==>
      m.inputClosed
  }

  /** The converse: whoever is accepting or has accepted a shutdown has ended the input. */
  predicate RequestsClose(m: Machine, h: History) {
    && (forall i :: 0 <= i < |m.offices| ==> FindsClosed(m, i))
    && (forall t :: t in h.replies && Accepted(h.replies[t]) ==> m.inputClosed)
  }

  ghost predicate ShutdownInv(s: State, cfg: Config) {
    && ScanSound(s.m) && DecidedCounts(s.m, s.h, cfg)
    && ClosedByRequest(s.m, s.h) && RequestsClose(s.m, s.h)
  }

  lemma AccountStepAccepts(b: Bank, i: nat, o: Office, salt: Text, cfg: Config)
    requires BankFits(b, cfg) && InRange(o.req, cfg.accounts) && PcMatches(o, cfg) && OnAccounts(o.pc)
    ensures var e := BankStep(b, i, o, salt, cfg);
            && e.office.req == o.req && BankFits(e.bank, cfg) && !e.office.pc.Counting?
            && (CommitsTo(o, e.office) ==> !Accepted(Decision(e.bank, e.office)))
  {
  }

  /** What the shutdown handler comes to: a sound scan, and a count in range. */
  lemma OwnScan(m: Machine, i: nat, cfg: Config)
    requires CoreInv(m, cfg) && ScanSound(m) && OfficeEnabled(m, i, cfg)
    requires m.offices[i].pc.Closing? || m.offices[i].pc.Counting?
    ensures var m' := ShutdownStep(m, i, cfg);
            && m'.bank == m.bank && m'.main == m.main && m'.offices[i].req == m.offices[i].req
            && (m'.offices[i].pc.Counting? ==>
                  && m'.offices[i].pc.sum <= m'.offices[i].pc.next
                  && (i < m'.offices[i].pc.next ==> m'.offices[i].pc.sum >= 1))
            && (Committed(m'.offices[i].pc) ==> CountInRange(Decision(m'.bank, m'.offices[i]), cfg))
            && (Closes(m'.offices[i]) <== Closes(m.offices[i]))
            && (m.inputClosed ==> m'.inputClosed)
            && (m'.inputClosed ==> m.inputClosed || Closes(m'.offices[i]))
  {
    hide QueueFits, LockInv, KnowledgeInv;
    assert FlagsTell(m);
  }

  /** The same for every step of an office in the middle of a request. */
  lemma OwnCount(m: Machine, i: nat, salt: Text, cfg: Config)
    requires CoreInv(m, cfg) && ScanSound(m) && OfficeEnabled(m, i, cfg)
    requires InHand(m.offices[i].pc) && !m.offices[i].pc.Replying?
    ensures var m' := OfficeApply(m, i, salt, cfg);
            && Fits(m', cfg) && m'.offices[i].req == m.offices[i].req
            && (m'.offices[i].pc.Counting? ==>
                  && m'.offices[i].pc.sum <= m'.offices[i].pc.next
                  && (i < m'.offices[i].pc.next ==> m'.offices[i].pc.sum >= 1))
            && (!Committed(m.offices[i].pc) && Committed(m'.offices[i].pc) ==>
                  CountInRange(Decision(m'.bank, m'.offices[i]), cfg))
            && (Closes(m'.offices[i]) <== Closes(m.offices[i]))
            && m'.main == m.main && (m.inputClosed ==> m'.inputClosed)
            && (m'.inputClosed ==> m.inputClosed || Closes(m'.offices[i]))
  {
    hide BankStep, ShutdownStep, QueueFits, SyncInv, LockInv, KnowledgeInv;
    OfficeApplyFits(m, i, salt, cfg);
    if OnAccounts(m.offices[i].pc) {
      AccountStepAccepts(m.bank, i, m.offices[i], salt, cfg);
      BankStepFits(m.bank, i, m.offices[i], salt, cfg);
    } else if !InLoop(m.offices[i].pc) {
      OwnScan(m, i, cfg);
    }
  }

  /** Before an office counts or accepts, it has closed the input. */
  lemma OwnClosing(m: Machine, i: nat, salt: Text, cfg: Config)
    requires CoreInv(m, cfg) && OfficeEnabled(m, i, cfg) && FindsClosed(m, i)
    requires InHand(m.offices[i].pc) && !m.offices[i].pc.Replying? && !Committed(m.offices[i].pc)
    ensures FindsClosed(OfficeApply(m, i, salt, cfg), i)
  {
    hide BankStep, QueueFits, SyncInv, LockInv, KnowledgeInv;
    if OnAccounts(m.offices[i].pc) {
      AccountStepAccepts(m.bank, i, m.offices[i], salt, cfg);
      BankStepFits(m.bank, i, m.offices[i], salt, cfg);
    }
  }

  lemma InHandStepFindsClosed(m: Machine, i: nat, salt: Text, j: nat, cfg: Config)
    requires CoreInv(m, cfg) && OfficeEnabled(m, i, cfg) && j < cfg.offices
    requires InHand(m.offices[i].pc) && !m.offices[i].pc.Replying?
    requires forall k :: 0 <= k < cfg.offices ==> FindsClosed(m, k)
    requires OfficeApply(m, i, salt, cfg).offices == m.offices[i := OfficeApply(m, i, salt, cfg).offices[i]]
    requires m.inputClosed ==> OfficeApply(m, i, salt, cfg).inputClosed
    ensures FindsClosed(OfficeApply(m, i, salt, cfg), j)
  {
    hide OfficeApply, QueueFits, SyncInv, LockInv, KnowledgeInv, Exec, Decision;
    assert FindsClosed(m, j);
    InHandStepRefines(m, i, salt, cfg);
    if j != i {
      if InHand(m.offices[j].pc) {
        OthersDecisionsStand(m, i, salt, j, cfg);
      }
    } else if !Committed(m.offices[i].pc) {
      OwnClosing(m, i, salt, cfg);
    }
  }

  /** The reason why the input has ended stays, whatever an office in hand does. */
  lemma ClosedStays(m: Machine, m': Machine, h: History, h': History, i: nat)
    requires ClosedByRequest(m, h) && i < |m.offices|
    requires h'.replies == h.replies && h'.cutShort == h.cutShort && m'.main == m.main
    requires |m'.offices| == |m.offices| && m'.offices == m.offices[i := m'.offices[i]]
    requires (Closes(m.offices[i]) ==> Closes(m'.offices[i])) && (m.inputClosed ==> m'.inputClosed)
    requires m'.inputClosed ==> m.inputClosed || Closes(m'.offices[i])
    ensures ClosedByRequest(m', h')
  {
    if j :| 0 <= j < |m.offices| && Closes(m.offices[j]) {
      assert Closes(m'.offices[j]);
    } else if m'.inputClosed && !m.inputClosed {
      assert Closes(m'.offices[i]);
    }
  }

  lemma ShutdownInHandStep(s: State, i: nat, salt: Text, l0: Ledger, cfg: Config)
    requires LinearReady(s, l0, cfg) && ShutdownInv(s, cfg) && OfficeEnabled(s.m, i, cfg)
    requires InHand(s.m.offices[i].pc) && !s.m.offices[i].pc.Replying?
    ensures ShutdownInv(Next(s, OfficeStep(i, salt), cfg), cfg)
  {
    hide BankStep, Exec, EventsMatch, RealTime, Replays, QueueFits, SyncInv, LockInv, KnowledgeInv;
    hide ClosedByRequest, FindsClosed, Closes, CountInRange, OfficeApply;
    var s' := Next(s, OfficeStep(i, salt), cfg);
    OwnCount(s.m, i, salt, cfg);
    InHandStepRefines(s.m, i, salt, cfg);
    QuietOfficeStep(s, i, salt, cfg);
    assert DecidedCounts(s'.m, s'.h, cfg) by {
      forall j | 0 <= j < cfg.offices && j != i && Committed(s.m.offices[j].pc)
        ensures Decision(s'.m.bank, s.m.offices[j]) == Decision(s.m.bank, s.m.offices[j])
      {
        OthersDecisionsStand(s.m, i, salt, j, cfg);
      }
    }
    ClosedStays(s.m, s'.m, s.h, s'.h, i);
    forall j: nat | j < cfg.offices
      ensures FindsClosed(s'.m, j)
    {
      InHandStepFindsClosed(s.m, i, salt, j, cfg);
    }
  }

  /** A step that leaves the accounts alone and takes no effect keeps the converse. */
  lemma RequestsCloseStays(m: Machine, m': Machine, h: History, h': History)
    requires RequestsClose(m, h) && m'.bank == m.bank && m'.inputClosed == m.inputClosed
    requires |m'.offices| == |m.offices|
    requires forall j :: 0 <= j < |m.offices| ==>
               m'.offices[j] == m.offices[j] || !(m'.offices[j].pc.Counting? || Committed(m'.offices[j].pc))
    requires forall t :: t in h'.replies && Accepted(h'.replies[t]) && !m.inputClosed ==> t in h.replies && h'.replies[t] == h.replies[t]
    ensures RequestsClose(m', h')
  {
    forall j | 0 <= j < |m'.offices|
      ensures FindsClosed(m', j)
    {
      assert FindsClosed(m, j);
    }
  }

  lemma ShutdownReplyStep(s: State, i: nat, salt: Text, cfg: Config)
    requires StateFits(s, cfg) && CoreInv(s.m, cfg) && DeliveryInv(s, cfg)
    requires ShutdownInv(s, cfg) && OfficeEnabled(s.m, i, cfg) && s.m.offices[i].pc.Replying?
    ensures ShutdownInv(Next(s, OfficeStep(i, salt), cfg), cfg)
  {
    hide QueueFits, SyncInv, LockInv, KnowledgeInv, Apply, Record;
    var s' := Next(s, OfficeStep(i, salt), cfg);
    ReplyStep(s, i, salt, cfg);
    assert FindsClosed(s.m, i) && Decision(s.m.bank, s.m.offices[i]) == s.m.offices[i].reply;
    RequestsCloseStays(s.m, s'.m, s.h, s'.h);
    if t :| t in s.h.replies && Accepted(s.h.replies[t]) {
      assert t in s'.h.replies && s'.h.replies[t] == s.h.replies[t];
    } else if j :| 0 <= j < |s.m.offices| && Closes(s.m.offices[j]) {
      assert if j == i then s.h.ticket[i] in s'.h.replies else Closes(s'.m.offices[j]);
    }
  }

  lemma ShutdownIdleStep(s: State, i: nat, salt: Text, cfg: Config)
    requires StateFits(s, cfg) && CoreInv(s.m, cfg)
    requires ShutdownInv(s, cfg) && OfficeEnabled(s.m, i, cfg) && !InHand(s.m.offices[i].pc)
    ensures ShutdownInv(Next(s, OfficeStep(i, salt), cfg), cfg)
  {
    hide QueueFits, SyncInv, LockInv, KnowledgeInv, BankStep;
    var s' := Next(s, OfficeStep(i, salt), cfg);
    assert s'.h.replies == s.h.replies && s'.m.bank == s.m.bank && s'.m.main == s.m.main;
    assert s'.m.offices == s.m.offices[i := s'.m.offices[i]];
    assert !Committed(s'.m.offices[i].pc) && !s'.m.offices[i].pc.Counting?;
    RequestsCloseStays(s.m, s'.m, s.h, s'.h);
    if j :| 0 <= j < |s.m.offices| && Closes(s.m.offices[j]) {
      assert Closes(s'.m.offices[j]);
    }
  }

  lemma ShutdownMainStep(s: State, input: Input, cfg: Config)
    requires StateFits(s, cfg) && CoreInv(s.m, cfg) && ShutdownInv(s, cfg) && MainEnabled(s.m, input, cfg)
    ensures ShutdownInv(Next(s, MainStep(input), cfg), cfg)
  {
    hide CoreInv, QueueFits;
    var s' := Next(s, MainStep(input), cfg);
    assert s'.m.offices == s.m.offices && s'.m.bank == s.m.bank;
    RequestsCloseStays(s.m, s'.m, s.h, s'.h);
  }

  lemma ShutdownStepKeeps(s: State, step: Step, l0: Ledger, cfg: Config)
    requires LinearReady(s, l0, cfg) && ShutdownInv(s, cfg) && Enabled(s.m, step, cfg)
    ensures ShutdownInv(Next(s, step, cfg), cfg)
  {
    hide CoreInv, DeliveryInv, LinearInv, ShutdownInv, QueueFits;
    match step
    case MainStep(input) => ShutdownMainStep(s, input, cfg);
    case OfficeStep(i, salt) =>
      if InHand(s.m.offices[i].pc) && !s.m.offices[i].pc.Replying? {
        ShutdownInHandStep(s, i, salt, l0, cfg);
      } else if s.m.offices[i].pc.Replying? {
        ShutdownReplyStep(s, i, salt, cfg);
      } else {
        ShutdownIdleStep(s, i, salt, cfg);
      }
  }

  // ----- what the racy count counts -----

  /** Office i is scanning in every state of the run. */
  predicate ScansThroughout(s: State, steps: seq<Step>, i: nat, cfg: Config)
    requires StateFits(s, cfg) && ValidRun(s, steps, cfg) && i < cfg.offices
    decreases |steps|
  {
    && s.m.offices[i].pc.Counting?
    && (steps != [] ==> ScansThroughout(Next(s, steps[0], cfg), steps[1..], i, cfg))
  }

  predicate RaisedThroughout(s: State, steps: seq<Step>, k: nat, cfg: Config)
    requires StateFits(s, cfg) && ValidRun(s, steps, cfg) && k < cfg.offices
    decreases |steps|
  {
    s.m.active[k] && (steps != [] ==> RaisedThroughout(Next(s, steps[0], cfg), steps[1..], k, cfg))
  }

  predicate RaisedSometime(s: State, steps: seq<Step>, k: nat, cfg: Config)
    requires StateFits(s, cfg) && ValidRun(s, steps, cfg) && k < cfg.offices
    decreases |steps|
  {
    s.m.active[k] || (steps != [] && RaisedSometime(Next(s, steps[0], cfg), steps[1..], k, cfg))
  }

  /** The scan advances by one flag at the office's own steps and else stands still. */
  lemma ScanStep(s: State, step: Step, i: nat, cfg: Config)
    requires StateFits(s, cfg) && Enabled(s.m, step, cfg) && i < cfg.offices
    requires s.m.offices[i].pc.Counting? && Next(s, step, cfg).m.offices[i].pc.Counting?
    ensures var pc, pc' := s.m.offices[i].pc, Next(s, step, cfg).m.offices[i].pc;
            if step.OfficeStep? && step.office == i
            then pc.next < cfg.offices && pc' == Counting(pc.next + 1, pc.sum + if s.m.active[pc.next] then 1 else 0)
            else pc' == pc
  {
    hide QueueFits, Record, BankStep;
    if step.OfficeStep? && step.office != i {
      OfficeStepRanks(s.m, step.office, step.salt, cfg);
    }
  }

  lemma {:induction false} ScanGoesUp(s: State, steps: seq<Step>, i: nat, cfg: Config)
    requires StateFits(s, cfg) && ValidRun(s, steps, cfg) && i < cfg.offices && ScansThroughout(s, steps, i, cfg)
    ensures Final(s, steps, cfg).m.offices[i].pc.Counting?
    ensures var pc, pc' := s.m.offices[i].pc, Final(s, steps, cfg).m.offices[i].pc;
            pc.next <= pc'.next && pc'.sum - pc.sum <= pc'.next - pc.next
    decreases |steps|
  {
    hide Next, Enabled, Fits;
    if steps != [] {
      ScanStep(s, steps[0], i, cfg);
      ScanGoesUp(Next(s, steps[0], cfg), steps[1..], i, cfg);
    }
  }

  lemma {:induction false} ScanAtLeast(s: State, steps: seq<Step>, i: nat, low: set<nat>, cfg: Config)
    requires StateFits(s, cfg) && ValidRun(s, steps, cfg) && i < cfg.offices && ScansThroughout(s, steps, i, cfg)
    requires var f := Final(s, steps, cfg).m.offices[i].pc;
             f.Counting? && forall k :: k in low ==>
               s.m.offices[i].pc.next <= k < f.next && k < cfg.offices && RaisedThroughout(s, steps, k, cfg)
    ensures s.m.offices[i].pc.sum + |low| <= Final(s, steps, cfg).m.offices[i].pc.sum
    decreases |steps|
  {
    hide Next, Enabled, QueueFits, BankFits;
    if steps == [] {
      assert low == {};
    } else {
      var k := s.m.offices[i].pc.next;
      ScanStep(s, steps[0], i, cfg);
      var own := steps[0].OfficeStep? && steps[0].office == i;
      ScanAtLeast(Next(s, steps[0], cfg), steps[1..], i, if own then low - {k} else low, cfg);
    }
  }

  lemma {:induction false} ScanAtMost(s: State, steps: seq<Step>, i: nat, high: set<nat>, cfg: Config)
    requires StateFits(s, cfg) && ValidRun(s, steps, cfg) && i < cfg.offices && ScansThroughout(s, steps, i, cfg)
    requires var f := Final(s, steps, cfg).m.offices[i].pc;
             f.Counting? && forall k: nat :: k < cfg.offices ==>
               (s.m.offices[i].pc.next <= k < f.next && RaisedSometime(s, steps, k, cfg) ==> k in high)
    ensures Final(s, steps, cfg).m.offices[i].pc.sum <= s.m.offices[i].pc.sum + |high|
    decreases |steps|
  {
    hide Next, Enabled, QueueFits, BankFits;
    if steps != [] {
      var k := s.m.offices[i].pc.next;
      ScanStep(s, steps[0], i, cfg);
      ScanGoesUp(Next(s, steps[0], cfg), steps[1..], i, cfg);
      var own := steps[0].OfficeStep? && steps[0].office == i;
      assert own && s.m.active[k] ==> k in high;
      ScanAtMost(Next(s, steps[0], cfg), steps[1..], i, if own then high - {k} else high, cfg);
    }
  }

  /** The office's next step is the one that builds its reply. */
  predicate ScanAnswers(m: Machine, i: nat, salt: Text, cfg: Config)
    requires Fits(m, cfg) && OfficeEnabled(m, i, cfg)
  {
    OfficeApply(m, i, salt, cfg).offices[i].pc.Replying?
  }

  lemma AnswerOfScan(m: Machine, i: nat, salt: Text, cfg: Config)
    requires Fits(m, cfg) && i < cfg.offices && m.offices[i].pc.Counting?
    ensures OfficeEnabled(m, i, cfg)
    ensures m.offices[i].pc.next <= cfg.offices < TWO_32
    ensures ScanAnswers(m, i, salt, cfg) <==> m.offices[i].pc.next == cfg.offices
    ensures ScanAnswers(m, i, salt, cfg) ==>
              OfficeApply(m, i, salt, cfg).offices[i].reply.payload == ToUint32(m.offices[i].pc.sum)
  {
    hide QueueFits, LoopStep, BankStep;
  }

  /** A shutdown is answered with a count that lies between the flags raised during the
      whole scan and those raised at some moment of it. */
  lemma ReportedCount(
      s: State, steps: seq<Step>, i: nat, low: set<nat>, high: set<nat>, salt: Text, cfg: Config)
    requires StateFits(s, cfg) && ValidRun(s, steps, cfg) && i < cfg.offices && ScansThroughout(s, steps, i, cfg)
    requires s.m.offices[i].pc == Counting(0, 0)
    requires forall k :: k in low ==> k < cfg.offices && RaisedThroughout(s, steps, k, cfg)
    requires forall k: nat :: k < cfg.offices && RaisedSometime(s, steps, k, cfg) ==> k in high
    ensures var f := Final(s, steps, cfg);
            && OfficeEnabled(f.m, i, cfg)
            && (ScanAnswers(f.m, i, salt, cfg) ==>
                  |low| <= OfficeApply(f.m, i, salt, cfg).offices[i].reply.payload <= |high|)
  {
    hide ValidRun, QueueFits, RaisedThroughout, RaisedSometime, OfficeApply, BankFits;
    ScanGoesUp(s, steps, i, cfg);
    AnswerOfScan(Final(s, steps, cfg).m, i, salt, cfg);
    if Final(s, steps, cfg).m.offices[i].pc.next == cfg.offices {
      ScanAtLeast(s, steps, i, low, cfg);
      ScanAtMost(s, steps, i, high, cfg);
    }
  }
}
