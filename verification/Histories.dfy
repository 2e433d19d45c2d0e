/** What an observer notes down while the machine runs. No step reads a history. */
module Histories {
  import opened BankTypes
  import opened Replies
  import opened OfficeMachine

  /** The moment at which a popped request takes effect, and the reply decided there. */
  datatype Event = Event(ticket: nat, req: Request, salt: Text, activeOffices: uint32, reply: Reply)

  /** The n-th popped request has ticket n; `ticket[i]` is the last one of office i.
      `repliedBefore[t]` are the tickets replied to when t was popped, and `cutShort`
      tells that an empty message has ended the input. */
  datatype History = History(
    pushed: seq<Request>,
    popped: seq<Request>,
    repliedBefore: seq<set<nat>>,
    ticket: seq<nat>,
    events: seq<Event>,
    decided: map<nat, Reply>,
    replies: map<nat, Reply>,
    cutShort: bool)

  datatype State = State(m: Machine, h: History)

  /** The office has taken effect: its reply is fixed although it may still have to
      build it, unlock and send. */
  predicate Committed(pc: Pc) {
    match pc
    case Validating(v) => v == VUnlock(false)
    case Creating(c) => c.CReply? || c.CUnlock?
    case Querying(b) => b.BUnlock?
    case Transferring(t) => t.TReply? || t.TUnlockFirst? || t.TUnlockSecond?
    case Replying => true
    case _ => false
  }

  /** The reply that a committed office is going to send. */
  function Decision(b: Bank, o: Office): Reply
    requires o.req.id < |b.accounts|
  {
    if o.pc == Creating(CReply) then MakeCreateReply(o.req.id)
    else if o.pc == Transferring(TReply) then
      MakeTransferReply(b.accounts[o.req.id].id, b.accounts[o.req.id].balance, Ok)
    else o.reply
  }

  function ActiveCount(reply: Reply): uint32 {
    if reply.op == OpShutdown && reply.code == Ok then reply.payload else 0
  }

  /** The step from `o` to `o'` is the one in which the request takes effect. */
  predicate CommitsTo(o: Office, o': Office) {
    InHand(o.pc) && !Committed(o.pc) && InHand(o'.pc) && Committed(o'.pc)
  }

  function Record(h: History, m: Machine, step: Step, cfg: Config): History
    requires Fits(m, cfg) && Enabled(m, step, cfg) && |h.ticket| == cfg.offices
  {
    var m' := Apply(m, step, cfg);
    match step
    case MainStep(input) =>
      if m.main.PushM? then h.(pushed := h.pushed + [m.main.req])
      else if input.EmptyMessage? then h.(cutShort := true)
      else h
    case OfficeStep(i, _) =>
      var o, o' := m.offices[i], m'.offices[i];
      if o.pc.Pop? && o'.pc.UnlockQueue? then
        h.(popped := h.popped + [o'.req],
           repliedBefore := h.repliedBefore + [h.replies.Keys],
           ticket := h.ticket[i := |h.popped|])
      else if o.pc.Replying? then
        h.(replies := h.replies[h.ticket[i] := o.reply])
      else if CommitsTo(o, o') then
        var reply := Decision(m'.bank, o');
        h.(events := h.events + [Event(h.ticket[i], o'.req, o'.salt, ActiveCount(reply), reply)],
           decided := h.decided[h.ticket[i] := reply])
      else h
  }

  // ----- runs -----

  predicate StateFits(s: State, cfg: Config) {
    Fits(s.m, cfg) && |s.h.ticket| == cfg.offices
  }

  function Next(s: State, step: Step, cfg: Config): (s': State)
    requires StateFits(s, cfg) && Enabled(s.m, step, cfg)
    ensures StateFits(s', cfg)
  {
    State(Apply(s.m, step, cfg), Record(s.h, s.m, step, cfg))
  }

  predicate ValidRun(s: State, steps: seq<Step>, cfg: Config)
    requires StateFits(s, cfg)
    decreases |steps|
  {
    steps == [] || (Enabled(s.m, steps[0], cfg) && ValidRun(Next(s, steps[0], cfg), steps[1..], cfg))
  }

  function Final(s: State, steps: seq<Step>, cfg: Config): (s': State)
    requires StateFits(s, cfg) && ValidRun(s, steps, cfg)
    ensures StateFits(s', cfg)
    decreases |steps|
  {
    if steps == [] then s else Final(Next(s, steps[0], cfg), steps[1..], cfg)
  }

  /** The n-th state that the run passes through, or its last one. */
  function StateAt(s: State, steps: seq<Step>, n: nat, cfg: Config): (s': State)
    requires StateFits(s, cfg) && ValidRun(s, steps, cfg)
    ensures StateFits(s', cfg)
    decreases n
  {
    if n == 0 || steps == [] then s else StateAt(Next(s, steps[0], cfg), steps[1..], n - 1, cfg)
  }

  lemma {:induction false} StateAtFollowsRun(s: State, steps: seq<Step>, n: nat, cfg: Config)
    requires StateFits(s, cfg) && ValidRun(s, steps, cfg)
    ensures n >= |steps| ==> StateAt(s, steps, n, cfg) == Final(s, steps, cfg)
    ensures n < |steps| ==>
              && Enabled(StateAt(s, steps, n, cfg).m, steps[n], cfg)
              && StateAt(s, steps, n + 1, cfg) == Next(StateAt(s, steps, n, cfg), steps[n], cfg)
    decreases n
  {
    hide Next, Enabled, StateFits;
    if steps != [] {
      if n > 0 {
        StateAtFollowsRun(Next(s, steps[0], cfg), steps[1..], n - 1, cfg);
      } else {
        assert StateAt(s, steps, 1, cfg) == StateAt(Next(s, steps[0], cfg), steps[1..], 0, cfg);
      }
    }
  }

  predicate Initial(s: State, cfg: Config)
    ensures Initial(s, cfg) ==> StateFits(s, cfg)
  {
    && InitMachine(s.m, cfg)
    && |s.h.ticket| == cfg.offices
    && s.h.pushed == [] && s.h.popped == [] && s.h.repliedBefore == []
    && s.h.events == [] && s.h.decided == map[] && s.h.replies == map[] && !s.h.cutShort
  }

  /** Some run from `s0`, of any length and interleaving, ends in `s`. */
  ghost predicate ReachedFrom(s0: State, s: State, cfg: Config)
    requires StateFits(s0, cfg)
  {
    exists steps :: ValidRun(s0, steps, cfg) && Final(s0, steps, cfg) == s
  }

  lemma {:induction false} RunsConnect(s: State, steps: seq<Step>, more: seq<Step>, cfg: Config)
    requires StateFits(s, cfg) && ValidRun(s, steps, cfg) && ValidRun(Final(s, steps, cfg), more, cfg)
    ensures ValidRun(s, steps + more, cfg)
    ensures Final(s, steps + more, cfg) == Final(Final(s, steps, cfg), more, cfg)
    decreases |steps|
  {
    hide Next, Enabled, StateFits;
    if steps == [] {
      assert steps + more == more;
    } else {
      RunsConnect(Next(s, steps[0], cfg), steps[1..], more, cfg);
      assert (steps + more)[1..] == steps[1..] + more;
    }
  }

  lemma ReachesNext(s0: State, s: State, step: Step, cfg: Config)
    requires StateFits(s0, cfg) && StateFits(s, cfg) && ReachedFrom(s0, s, cfg) && Enabled(s.m, step, cfg)
    ensures ReachedFrom(s0, Next(s, step, cfg), cfg)
  {
    hide Next, Enabled, StateFits;
    var steps :| ValidRun(s0, steps, cfg) && Final(s0, steps, cfg) == s;
    assert ValidRun(s, [step], cfg) && Final(s, [step], cfg) == Next(s, step, cfg) by {
      assert [step][1..] == [];
    }
    RunsConnect(s0, steps, [step], cfg);
  }

  lemma {:induction false} StateAtReached(s: State, steps: seq<Step>, n: nat, cfg: Config)
    requires StateFits(s, cfg) && ValidRun(s, steps, cfg)
    ensures ReachedFrom(s, StateAt(s, steps, n, cfg), cfg)
  {
    hide Next, Enabled, StateFits;
    if n == 0 || steps == [] {
      assert ValidRun(s, [], cfg) && Final(s, [], cfg) == s;
    } else {
      StateAtReached(s, steps, n - 1, cfg);
      StateAtFollowsRun(s, steps, n - 1, cfg);
      if n - 1 < |steps| {
        ReachesNext(s, StateAt(s, steps, n - 1, cfg), steps[n - 1], cfg);
      } else {
        StateAtFollowsRun(s, steps, n, cfg);
      }
    }
  }
}
