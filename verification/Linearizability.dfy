/** Every interleaved run gives the ledger and the replies of the atomic bank run in one
    sequential order that respects real time. */
module Linearizability {
  import opened BankTypes
  import opened OfficeMachine
  import opened Histories
  import opened AccountLocks
  import opened HandlerKnowledge
  import opened CoreInvariant
  import opened QueueProtocol
  import opened AtomicBank
  import opened Refinement
  import opened Delivery

  predicate EventsFit(events: seq<Event>, accounts: nat) {
    forall p :: 0 <= p < |events| ==> InRange(events[p].req, accounts)
  }

  /** The ledger after the atomic bank has run the events in order. */
  function Replay(hash: Hasher, l: Ledger, events: seq<Event>): (l': Ledger)
    requires EventsFit(events, |l|)
    ensures |l'| == |l|
    decreases |events|
  {
    if events == [] then l
    else
      var e := events[|events| - 1];
      Exec(hash, Replay(hash, l, events[..|events| - 1]), e.req, e.salt, e.activeOffices).ledger
  }

  /** Every recorded reply is the one the atomic bank gives at that point. */
  predicate Legal(hash: Hasher, l: Ledger, events: seq<Event>)
    requires EventsFit(events, |l|)
    decreases |events|
  {
    events == [] ||
    var n, e := |events| - 1, events[|events| - 1];
    && Legal(hash, l, events[..n])
    && e.reply == Exec(hash, Replay(hash, l, events[..n]), e.req, e.salt, e.activeOffices).reply
  }

  lemma ReplayAppend(hash: Hasher, l: Ledger, events: seq<Event>, e: Event)
    requires EventsFit(events, |l|) && InRange(e.req, |l|)
    ensures EventsFit(events + [e], |l|)
    ensures var out := Exec(hash, Replay(hash, l, events), e.req, e.salt, e.activeOffices);
            && Replay(hash, l, events + [e]) == out.ledger
            && (Legal(hash, l, events + [e]) <==> Legal(hash, l, events) && e.reply == out.reply)
  {
    assert (events + [e])[..|events|] == events;
  }

  lemma {:induction false} LegalAt(hash: Hasher, l: Ledger, events: seq<Event>, p: nat)
    requires EventsFit(events, |l|) && Legal(hash, l, events) && p < |events|
    ensures var e := events[p];
            e.reply == Exec(hash, Replay(hash, l, events[..p]), e.req, e.salt, e.activeOffices).reply
    decreases |events|
  {
    hide Exec, Replay;
    var n := |events| - 1;
    if p < n {
      LegalAt(hash, l, events[..n], p);
      assert events[..n][..p] == events[..p];
    }
  }

  lemma ReplayNext(hash: Hasher, l: Ledger, events: seq<Event>, p: nat)
    requires EventsFit(events, |l|) && p < |events|
    ensures var e := events[p];
            Replay(hash, l, events[..p + 1]) ==
            Exec(hash, Replay(hash, l, events[..p]), e.req, e.salt, e.activeOffices).ledger
  {
    hide Exec;
    assert events[..p + 1][..p] == events[..p];
  }

  lemma {:induction false} ReplayExtends(hash: Hasher, l: Ledger, events: seq<Event>, p: nat)
    requires EventsFit(events, |l|) && WellFormed(l) && p <= |events|
    ensures WellFormed(Replay(hash, l, events[..p]))
    ensures Extends(Replay(hash, l, events[..p]), Replay(hash, l, events))
    decreases |events|
  {
    var n := |events| - 1;
    if p == |events| {
      assert events[..p] == events;
      if p > 0 {
        ReplayExtends(hash, l, events[..n], n);
        assert events[..n][..n] == events[..n];
        ExecExtends(hash, Replay(hash, l, events[..n]), events[n].req, events[n].salt, events[n].activeOffices);
      }
    } else {
      ReplayExtends(hash, l, events[..n], p);
      assert events[..n][..p] == events[..p];
      ReplayWellFormed(hash, l, events[..n]);
      ExecExtends(hash, Replay(hash, l, events[..n]), events[n].req, events[n].salt, events[n].activeOffices);
    }
  }

  lemma {:induction false} ReplayWellFormed(hash: Hasher, l: Ledger, events: seq<Event>)
    requires EventsFit(events, |l|) && WellFormed(l)
    ensures WellFormed(Replay(hash, l, events))
    decreases |events|
  {
    var n := |events| - 1;
    if n >= 0 {
      ReplayWellFormed(hash, l, events[..n]);
      ExecExtends(hash, Replay(hash, l, events[..n]), events[n].req, events[n].salt, events[n].activeOffices);
    }
  }

  predicate ForTicket(events: seq<Event>, p: int, t: nat) {
    0 <= p < |events| && events[p].ticket == t
  }

  predicate EventsSound(h: History) {
    forall p :: 0 <= p < |h.events| ==>
      var e := h.events[p];
      && e.ticket < |h.popped| && e.req == h.popped[e.ticket]
      && e.ticket in h.decided && h.decided[e.ticket] == e.reply
  }

  predicate TicketsDistinct(events: seq<Event>) {
    forall p, q :: 0 <= p < q < |events| ==> events[p].ticket != events[q].ticket
  }

  ghost predicate DecidedHaveEvents(h: History) {
    && (forall t :: t in h.decided ==> exists p :: ForTicket(h.events, p, t))
    && (forall t :: t in h.replies ==> t in h.decided && h.decided[t] == h.replies[t])
  }

  /** Each ticket takes effect at most once, for the request that was popped with it. */
  ghost predicate EventsMatch(h: History) {
    EventsSound(h) && TicketsDistinct(h.events) && DecidedHaveEvents(h)
  }

  /** An office has taken effect exactly when its program counter says so, and is going
      to send the reply decided then. */
  predicate DecisionsStand(m: Machine, h: History) {
    && |h.ticket| == |m.offices|
    && forall i :: 0 <= i < |m.offices| && InHand(m.offices[i].pc) ==>
      && m.offices[i].req.id < |m.bank.accounts|
      && (Committed(m.offices[i].pc) <==> h.ticket[i] in h.decided)
      && (Committed(m.offices[i].pc) ==> h.decided[h.ticket[i]] == Decision(m.bank, m.offices[i]))
  }

  /** A request already replied to when another was popped took effect before it. */
  ghost predicate RealTime(h: History) {
    && |h.repliedBefore| == |h.popped|
    && (forall t :: 0 <= t < |h.popped| ==> h.repliedBefore[t] <= h.replies.Keys)
    && (forall p, t :: 0 <= p < |h.events| && h.events[p].ticket < |h.popped|
                       && t in h.repliedBefore[h.events[p].ticket] ==>
          exists q :: q < p && ForTicket(h.events, q, t))
  }

  predicate Replays(s: State, l0: Ledger, cfg: Config)
    requires StateFits(s, cfg)
  {
    && |l0| == cfg.accounts && EventsFit(s.h.events, cfg.accounts)
    && Legal(cfg.hash, l0, s.h.events)
    && Replay(cfg.hash, l0, s.h.events) == Abstract(s.m, cfg)
  }

  ghost predicate LinearInv(s: State, l0: Ledger, cfg: Config)
    requires StateFits(s, cfg)
  {
    EventsMatch(s.h) && DecisionsStand(s.m, s.h) && RealTime(s.h) && Replays(s, l0, cfg)
  }

  // ----- the step of an office in the middle of a request -----

  lemma InHandStepRefines(m: Machine, i: nat, salt: Text, cfg: Config)
    requires CoreInv(m, cfg) && OfficeEnabled(m, i, cfg)
    requires InHand(m.offices[i].pc) && !m.offices[i].pc.Replying?
    ensures var m' := OfficeApply(m, i, salt, cfg);
            && Fits(m', cfg) && m'.offices[i].req == m.offices[i].req && InHand(m'.offices[i].pc)
            && Simulates(Abstract(m, cfg), Abstract(m', cfg), m.bank, m.offices[i],
                         Effect(m'.bank, m'.offices[i]), cfg)
  {
    OfficeStepIsGood(m, i, salt, cfg);
    if OnAccounts(m.offices[i].pc) {
      AccountStepRefines(m, i, salt, cfg);
      HandlingFrame(m, i, salt, cfg);
    } else if InLoop(m.offices[i].pc) {
      OtherStepsKeepAbstract(m, OfficeStep(i, salt), cfg);
    } else {
      ShutdownRefines(m, i, cfg);
    }
  }

  /** Whatever office i does, the decisions of the others stand. */
  lemma OthersDecisionsStand(m: Machine, i: nat, salt: Text, j: nat, cfg: Config)
    requires CoreInv(m, cfg) && OfficeEnabled(m, i, cfg) && j < cfg.offices && j != i
    requires InHand(m.offices[j].pc)
    ensures var m' := OfficeApply(m, i, salt, cfg);
            && |m'.bank.accounts| == cfg.accounts
            && Decision(m'.bank, m.offices[j]) == Decision(m.bank, m.offices[j])
  {
    OfficeStepIsGood(m, i, salt, cfg);
    var o, a := m.offices[j], m.offices[j].req.id;
    if Holds(o, a) {
      assert m.bank.locks[a] == Some(j) && m.bank.locks[a] != Some(i);
      assert SameEntry(m.bank, OfficeApply(m, i, salt, cfg).bank, a);
    }
  }

  lemma CommitExtends(h: History, h': History, e: Event)
    requires EventsMatch(h)
    requires e.ticket < |h.popped| && e.req == h.popped[e.ticket] && e.ticket !in h.decided
    requires h' == h.(events := h.events + [e], decided := h.decided[e.ticket := e.reply])
    ensures EventsMatch(h')
  {
    assert TicketsDistinct(h'.events);
    assert DecidedHaveEvents(h') by {
      forall t | t in h'.decided
        ensures exists p :: ForTicket(h'.events, p, t)
      {
        if t == e.ticket {
          assert ForTicket(h'.events, |h.events|, t);
        } else {
          var p :| ForTicket(h.events, p, t);
          assert ForTicket(h'.events, p, t);
        }
      }
    }
  }

  lemma CommitInRealTime(h: History, h': History, e: Event)
    requires EventsMatch(h) && RealTime(h) && e.ticket < |h.popped|
    requires h' == h.(events := h.events + [e], decided := h'.decided)
    ensures RealTime(h')
  {
    forall p, t | 0 <= p < |h'.events| && h'.events[p].ticket < |h'.popped|
                  && t in h'.repliedBefore[h'.events[p].ticket]
      ensures exists q :: q < p && ForTicket(h'.events, q, t)
    {
      if p == |h.events| {
        assert t in h.replies;
        var q :| ForTicket(h.events, q, t);
        assert ForTicket(h'.events, q, t);
      } else {
        var q :| q < p && ForTicket(h.events, q, t);
        assert ForTicket(h'.events, q, t);
      }
    }
  }

  lemma PopExtends(h: History, h': History, i: nat, req: Request)
    requires EventsMatch(h) && RealTime(h) && i < |h.ticket|
    requires h' == h.(popped := h.popped + [req], repliedBefore := h.repliedBefore + [h.replies.Keys],
                      ticket := h.ticket[i := |h.popped|])
    ensures EventsMatch(h') && RealTime(h') && |h.popped| !in h.decided
  {
    assert forall t :: t in h.decided ==> t < |h.popped|;
    forall p, t | 0 <= p < |h'.events| && t in h'.repliedBefore[h'.events[p].ticket]
      ensures exists q :: q < p && ForTicket(h'.events, q, t)
    {
      assert t in h.repliedBefore[h.events[p].ticket];
    }
  }

  lemma ReplyExtends(h: History, h': History, t: nat, reply: Reply)
    requires EventsMatch(h) && RealTime(h) && t in h.decided && h.decided[t] == reply
    requires h' == h.(replies := h.replies[t := reply])
    ensures EventsMatch(h') && RealTime(h')
  {
  }

  lemma InputExtends(h: History, h': History)
    requires EventsMatch(h) && RealTime(h) && h' == h.(pushed := h'.pushed, cutShort := h'.cutShort)
    ensures EventsMatch(h') && RealTime(h')
  {
  }

  ghost predicate LinearReady(s: State, l0: Ledger, cfg: Config) {
    && StateFits(s, cfg) && CoreInv(s.m, cfg) && DeliveryInv(s, cfg) && LinearInv(s, l0, cfg)
  }

  /** The step in which office i takes effect. */
  lemma CommitKeepsReplay(s: State, i: nat, salt: Text, l0: Ledger, cfg: Config)
    requires LinearReady(s, l0, cfg) && OfficeEnabled(s.m, i, cfg)
    requires InHand(s.m.offices[i].pc) && !Committed(s.m.offices[i].pc)
    requires Committed(OfficeApply(s.m, i, salt, cfg).offices[i].pc)
    ensures var s' := Next(s, OfficeStep(i, salt), cfg);
            var o' := s'.m.offices[i];
            var reply := Decision(s'.m.bank, o');
            && Replays(s', l0, cfg) && o'.req == s.m.offices[i].req
            && s'.h == s.h.(events := s.h.events + [Event(s.h.ticket[i], o'.req, o'.salt, ActiveCount(reply), reply)],
                            decided := s.h.decided[s.h.ticket[i] := reply])
  {
    InHandStepRefines(s.m, i, salt, cfg);
    var s' := Next(s, OfficeStep(i, salt), cfg);
    ReplayAppend(cfg.hash, l0, s.h.events, s'.h.events[|s.h.events|]);
  }

  lemma CommitKeepsDecisions(s: State, i: nat, salt: Text, l0: Ledger, cfg: Config)
    requires LinearReady(s, l0, cfg) && OfficeEnabled(s.m, i, cfg)
    requires InHand(s.m.offices[i].pc) && !Committed(s.m.offices[i].pc)
    requires Committed(OfficeApply(s.m, i, salt, cfg).offices[i].pc)
    ensures var s' := Next(s, OfficeStep(i, salt), cfg); DecisionsStand(s'.m, s'.h)
  {
    hide EventsMatch, RealTime, Replays, BankStep, QueueFits, KnowledgeInv, SyncInv, LockInv;
    var s' := Next(s, OfficeStep(i, salt), cfg);
    CommitKeepsReplay(s, i, salt, l0, cfg);
    OfficeStepIsGood(s.m, i, salt, cfg);
    forall j | 0 <= j < cfg.offices && j != i && InHand(s.m.offices[j].pc)
      ensures s.h.ticket[j] != s.h.ticket[i]
      ensures Decision(s'.m.bank, s.m.offices[j]) == Decision(s.m.bank, s.m.offices[j])
    {
      OthersDecisionsStand(s.m, i, salt, j, cfg);
    }
  }

  lemma CommitKeepsLinear(s: State, i: nat, salt: Text, l0: Ledger, cfg: Config)
    requires LinearReady(s, l0, cfg) && OfficeEnabled(s.m, i, cfg)
    requires InHand(s.m.offices[i].pc) && !Committed(s.m.offices[i].pc)
    requires Committed(OfficeApply(s.m, i, salt, cfg).offices[i].pc)
    ensures LinearInv(Next(s, OfficeStep(i, salt), cfg), l0, cfg)
  {
    var s' := Next(s, OfficeStep(i, salt), cfg);
    CommitKeepsReplay(s, i, salt, l0, cfg);
    CommitKeepsDecisions(s, i, salt, l0, cfg);
    CommitExtends(s.h, s'.h, s'.h.events[|s.h.events|]);
    CommitInRealTime(s.h, s'.h, s'.h.events[|s.h.events|]);
  }

  /** A step in the middle of a request that is not the one taking effect. */
  lemma SilentKeepsLinear(s: State, i: nat, salt: Text, l0: Ledger, cfg: Config)
    requires LinearReady(s, l0, cfg) && OfficeEnabled(s.m, i, cfg)
    requires InHand(s.m.offices[i].pc) && !s.m.offices[i].pc.Replying?
    requires Committed(s.m.offices[i].pc) || !Committed(OfficeApply(s.m, i, salt, cfg).offices[i].pc)
    ensures LinearInv(Next(s, OfficeStep(i, salt), cfg), l0, cfg)
  {
    hide EventsMatch, RealTime, BankStep, LoopStep, ShutdownStep;
    var s' := Next(s, OfficeStep(i, salt), cfg);
    InHandStepRefines(s.m, i, salt, cfg);
    OfficeStepIsGood(s.m, i, salt, cfg);
    assert s'.h == s.h;
    forall j | 0 <= j < cfg.offices && j != i && InHand(s.m.offices[j].pc)
      ensures Decision(s'.m.bank, s.m.offices[j]) == Decision(s.m.bank, s.m.offices[j])
    {
      OthersDecisionsStand(s.m, i, salt, j, cfg);
    }
  }

  lemma InHandKeepsLinear(s: State, i: nat, salt: Text, l0: Ledger, cfg: Config)
    requires LinearReady(s, l0, cfg) && OfficeEnabled(s.m, i, cfg)
    requires InHand(s.m.offices[i].pc) && !s.m.offices[i].pc.Replying?
    ensures LinearInv(Next(s, OfficeStep(i, salt), cfg), l0, cfg)
  {
    hide CoreInv, DeliveryInv, LinearInv;
    if !Committed(s.m.offices[i].pc) && Committed(OfficeApply(s.m, i, salt, cfg).offices[i].pc) {
      CommitKeepsLinear(s, i, salt, l0, cfg);
    } else {
      SilentKeepsLinear(s, i, salt, l0, cfg);
    }
  }

  lemma PopKeepsLinear(s: State, i: nat, salt: Text, l0: Ledger, cfg: Config)
    requires LinearReady(s, l0, cfg) && OfficeEnabled(s.m, i, cfg) && s.m.offices[i].pc.Pop?
    ensures LinearInv(Next(s, OfficeStep(i, salt), cfg), l0, cfg)
  {
    hide EventsMatch, RealTime, QueueFits, KnowledgeInv, SyncInv, LockInv;
    var s' := Next(s, OfficeStep(i, salt), cfg);
    PopStep(s, i, salt, cfg);
    OtherStepsKeepAbstract(s.m, OfficeStep(i, salt), cfg);
    PopExtends(s.h, s'.h, i, s'.m.offices[i].req);
    assert DecisionsStand(s'.m, s'.h);
  }

  lemma ReplyKeepsDecisions(m: Machine, h: History, m': Machine, h': History, i: nat, t: nat)
    requires i < |m.offices| == |h.ticket| && OwnTickets(m, h) && DecisionsStand(m, h)
    requires m' == SetOffice(m, i, m.offices[i].(pc := ClearActive))
    requires h'.ticket == h.ticket && h'.decided == h.decided
    ensures DecisionsStand(m', h')
  {
  }

  lemma ReplyKeepsLinear(s: State, i: nat, salt: Text, l0: Ledger, cfg: Config)
    requires LinearReady(s, l0, cfg) && OfficeEnabled(s.m, i, cfg) && s.m.offices[i].pc.Replying?
    ensures LinearInv(Next(s, OfficeStep(i, salt), cfg), l0, cfg)
  {
    var s' := Next(s, OfficeStep(i, salt), cfg);
    ReplyStep(s, i, salt, cfg);
    OtherStepsKeepAbstract(s.m, OfficeStep(i, salt), cfg);
    ReplyExtends(s.h, s'.h, s.h.ticket[i], s.m.offices[i].reply);
    ReplyKeepsDecisions(s.m, s.h, s'.m, s'.h, i, s.h.ticket[i]);
  }

  lemma OutOfHandKeepsLinear(s: State, i: nat, salt: Text, l0: Ledger, cfg: Config)
    requires LinearReady(s, l0, cfg) && OfficeEnabled(s.m, i, cfg)
    requires !InHand(s.m.offices[i].pc) && !s.m.offices[i].pc.Pop?
    ensures LinearInv(Next(s, OfficeStep(i, salt), cfg), l0, cfg)
  {
    var s' := Next(s, OfficeStep(i, salt), cfg);
    QuietOfficeStep(s, i, salt, cfg);
    OtherStepsKeepAbstract(s.m, OfficeStep(i, salt), cfg);
    assert s'.h == s.h;
  }

  lemma MainKeepsLinear(s: State, input: Input, l0: Ledger, cfg: Config)
    requires LinearReady(s, l0, cfg) && MainEnabled(s.m, input, cfg)
    ensures LinearInv(Next(s, MainStep(input), cfg), l0, cfg)
  {
    hide DeliveryInv, CoreInv, EventsMatch, RealTime;
    var s' := Next(s, MainStep(input), cfg);
    OtherStepsKeepAbstract(s.m, MainStep(input), cfg);
    InputExtends(s.h, s'.h);
    assert s'.m.offices == s.m.offices;
  }

  lemma LinearInitially(s: State, cfg: Config)
    requires Initial(s, cfg)
    ensures LinearInv(s, Concrete(s.m, cfg), cfg)
  {
    assert Abstract(s.m, cfg) == Concrete(s.m, cfg);
  }

  lemma LinearStep(s: State, step: Step, l0: Ledger, cfg: Config)
    requires LinearReady(s, l0, cfg) && Enabled(s.m, step, cfg)
    ensures LinearInv(Next(s, step, cfg), l0, cfg)
  {
    hide CoreInv, DeliveryInv, LinearInv;
    match step
    case MainStep(input) => MainKeepsLinear(s, input, l0, cfg);
    case OfficeStep(i, salt) =>
      var pc := s.m.offices[i].pc;
      if pc.Pop? {
        PopKeepsLinear(s, i, salt, l0, cfg);
      } else if !InHand(pc) {
        OutOfHandKeepsLinear(s, i, salt, l0, cfg);
      } else if pc.Replying? {
        ReplyKeepsLinear(s, i, salt, l0, cfg);
      } else {
        InHandKeepsLinear(s, i, salt, l0, cfg);
      }
  }
}
