/** Balances and totals of the interleaved run, obtained from the atomic bank it refines. */
module Money {
  import opened BankTypes
  import opened OfficeMachine
  import opened Histories
  import opened AccountLocks
  import opened HandlerKnowledge
  import opened CoreInvariant
  import opened AtomicBank
  import opened Refinement
  import opened Linearizability

  /** The opening balances of the accounts that the events created. */
  function OpenedBy(events: seq<Event>): nat {
    if events == [] then 0
    else OpenedBy(events[..|events| - 1]) + Opened(events[|events| - 1].req, events[|events| - 1].reply.code)
  }

  /** The money that wrapped credits among the events destroyed. */
  function LostBy(hash: Hasher, l: Ledger, events: seq<Event>): nat
    requires EventsFit(events, |l|)
    decreases |events|
  {
    if events == [] then 0
    else
      var n := |events| - 1;
      LostBy(hash, l, events[..n]) + Lost(hash, Replay(hash, l, events[..n]), events[n].req)
  }

  /** Without any assumption on the requests: exactly the wrapped credits lose money. */
  lemma {:induction false} ReplayTotal(hash: Hasher, l: Ledger, events: seq<Event>)
    requires EventsFit(events, |l|) && Legal(hash, l, events)
    ensures Total(Replay(hash, l, events)) + LostBy(hash, l, events) == Total(l) + OpenedBy(events)
    decreases |events|
  {
    if events != [] {
      var n, e := |events| - 1, events[|events| - 1];
      ReplayTotal(hash, l, events[..n]);
      ConservationExact(hash, Replay(hash, l, events[..n]), e.req, e.salt, e.activeOffices);
    }
  }

  // ----- the exact condition for bounded balances -----

  /** Every opening that was accepted is of at most the maximal balance. */
  predicate ModestOpenings(events: seq<Event>) {
    forall p :: 0 <= p < |events| ==> Opened(events[p].req, events[p].reply.code) <= MAX_BALANCE
  }

  /** The ledger is bounded after any number of the events. */
  predicate BoundedThroughout(hash: Hasher, l: Ledger, events: seq<Event>)
    requires EventsFit(events, |l|)
  {
    forall n :: 0 <= n <= |events| ==> Bounded(Replay(hash, l, events[..n]))
  }

  lemma {:induction false} ReplayConserves(hash: Hasher, l: Ledger, events: seq<Event>)
    requires EventsFit(events, |l|) && Legal(hash, l, events) && Bounded(l) && ModestOpenings(events)
    ensures Bounded(Replay(hash, l, events)) && LostBy(hash, l, events) == 0
    ensures Total(Replay(hash, l, events)) == Total(l) + OpenedBy(events)
    decreases |events|
  {
    hide Exec, Bounded, Opened, Lost;
    if events != [] {
      var n, e := |events| - 1, events[|events| - 1];
      ReplayConserves(hash, l, events[..n]);
      BoundedExactly(hash, Replay(hash, l, events[..n]), e.req, e.salt, e.activeOffices);
    }
  }

  lemma {:induction false} LegalPrefix(hash: Hasher, l: Ledger, events: seq<Event>, n: nat)
    requires EventsFit(events, |l|) && Legal(hash, l, events) && n <= |events|
    ensures Legal(hash, l, events[..n])
    decreases |events|
  {
    hide Exec, Replay;
    if n < |events| {
      LegalPrefix(hash, l, events[..|events| - 1], n);
      assert events[..|events| - 1][..n] == events[..n];
    } else {
      assert events[..n] == events;
    }
  }

  /** Balances stay in 0..MAX_BALANCE throughout a run of the atomic bank exactly when no
      opening above that was accepted; what was refused does not matter. */
  lemma ReplayBoundedExactly(hash: Hasher, l: Ledger, events: seq<Event>)
    requires EventsFit(events, |l|) && Legal(hash, l, events) && Bounded(l)
    ensures BoundedThroughout(hash, l, events) <==> ModestOpenings(events)
  {
    hide Exec, Bounded, Opened, Lost, Total;
    if ModestOpenings(events) {
      forall n | 0 <= n <= |events|
        ensures Bounded(Replay(hash, l, events[..n]))
      {
        LegalPrefix(hash, l, events, n);
        ReplayConserves(hash, l, events[..n]);
      }
    }
    if BoundedThroughout(hash, l, events) {
      forall p | 0 <= p < |events|
        ensures Opened(events[p].req, events[p].reply.code) <= MAX_BALANCE
      {
        var before, e := events[..p + 1], events[p];
        assert before[..p] == events[..p];
        LegalPrefix(hash, l, events, p + 1);
        BoundedExactly(hash, Replay(hash, l, events[..p]), e.req, e.salt, e.activeOffices);
      }
    }
  }

  // ----- from the abstract ledger to memory -----

  /** What the office has debited and not yet credited. */
  function Debit(o: Office): nat {
    if o.pc == Transferring(TCredit) && o.req.op.Transfer? then o.req.op.amount else 0
  }

  function DebitSum(offices: seq<Office>): nat {
    if offices == [] then 0 else DebitSum(offices[..|offices| - 1]) + Debit(offices[|offices| - 1])
  }

  /** The debit that the abstract ledger undoes did not wrap, so undoing it does not
      either, whatever the balances are. */
  lemma UndoneDebitIsExact(m: Machine, i: nat, cfg: Config)
    requires CoreInv(m, cfg) && i < cfg.offices
    requires m.offices[i].pc == Transferring(TCredit)
    ensures var o := m.offices[i];
            && m.bank.used[o.req.id] && m.bank.locks[o.req.id] == Some(i)
            && m.bank.accounts[o.req.id].balance + o.req.op.amount < TWO_32
            && Abstract(m, cfg)[o.req.id] == EntryHeldBy(m.bank, o, o.req.id)
  {
    var o := m.offices[i];
    assert Knows(m.bank, o, cfg);
    assert Holds(o, o.req.id);
  }

  /** The abstract ledger with only the first n offices' debits undone. */
  function Partly(m: Machine, n: nat, cfg: Config): (l: Ledger)
    requires Fits(m, cfg) && n <= cfg.offices
    ensures |l| == cfg.accounts
  {
    seq(cfg.accounts, a requires 0 <= a < cfg.accounts => AbstractEntry(m.bank, m.offices[..n], a))
  }

  lemma UndoOneMore(m: Machine, n: nat, cfg: Config)
    requires CoreInv(m, cfg) && n < cfg.offices
    ensures Total(Partly(m, n + 1, cfg)) == Total(Partly(m, n, cfg)) + Debit(m.offices[n])
  {
    var o, l, l' := m.offices[n], Partly(m, n, cfg), Partly(m, n + 1, cfg);
    if o.pc == Transferring(TCredit) {
      UndoneDebitIsExact(m, n, cfg);
      var id := o.req.id;
      var entry := EntryHeldBy(m.bank, o, id);
      assert l[id] == Some(m.bank.accounts[id]);
      forall a | 0 <= a < cfg.accounts
        ensures l'[a] == l[id := entry][a]
      {
        assert a != id ==> InFlight(o, a) == 0;
      }
      assert l' == l[id := entry];
      TotalUpdate(l, id, entry);
    } else {
      assert l' == l;
    }
  }

  lemma {:induction false} UndoAll(m: Machine, n: nat, cfg: Config)
    requires CoreInv(m, cfg) && n <= cfg.offices
    ensures Total(Partly(m, n, cfg)) == Total(Concrete(m, cfg)) + DebitSum(m.offices[..n])
  {
    hide QueueFits, LockInv, KnowledgeInv, Total, Debit;
    if n == 0 {
      assert Partly(m, 0, cfg) == Concrete(m, cfg);
    } else {
      UndoAll(m, n - 1, cfg);
      UndoOneMore(m, n - 1, cfg);
      assert m.offices[..n][..n - 1] == m.offices[..n - 1];
    }
  }

  /** The abstract total is the money in memory plus the debits still to be credited. */
  lemma TotalSplits(m: Machine, cfg: Config)
    requires CoreInv(m, cfg)
    ensures Total(Abstract(m, cfg)) == Total(Concrete(m, cfg)) + DebitSum(m.offices)
  {
    UndoAll(m, cfg.offices, cfg);
    assert m.offices[..cfg.offices] == m.offices;
    assert Partly(m, cfg.offices, cfg) == Abstract(m, cfg);
  }

  /** Every balance in memory is within 0..MAX_BALANCE. */
  predicate BalancesInRange(m: Machine, cfg: Config)
    requires Fits(m, cfg)
  {
    forall a :: 0 <= a < cfg.accounts && m.bank.used[a] ==> 0 <= m.bank.accounts[a].balance <= MAX_BALANCE
  }

  /** No balance in memory exceeds the maximum either. */
  lemma MemoryBounded(m: Machine, cfg: Config)
    requires CoreInv(m, cfg) && Bounded(Abstract(m, cfg))
    ensures BalancesInRange(m, cfg)
  {
    forall a | 0 <= a < cfg.accounts && m.bank.used[a]
      ensures m.bank.accounts[a].balance <= MAX_BALANCE
    {
      assert Abstract(m, cfg)[a].value.balance <= MAX_BALANCE;
      if m.bank.locks[a].Some? && InFlight(m.offices[m.bank.locks[a].value], a) > 0 {
        UndoneDebitIsExact(m, m.bank.locks[a].value, cfg);
      }
    }
  }

  /** Where an office does 32-bit arithmetic, the result is the one of unbounded integers. */
  predicate ExactArithmetic(b: Bank, o: Office)
    requires o.pc.Transferring? ==> o.req.op.Transfer? && o.req.id < |b.accounts| && o.req.op.destId < |b.accounts|
  {
    o.pc.Transferring? ==>
      var balance, destBalance, amount :=
        b.accounts[o.req.id].balance, b.accounts[o.req.op.destId].balance, o.req.op.amount;
      && (o.pc.t.THigh? ==> Add32(destBalance, amount) == destBalance + amount)
      && (o.pc.t.TDebit? ==> Sub32(balance, amount) == balance - amount)
      && (o.pc.t.TCredit? ==> Add32(destBalance, amount) == destBalance + amount <= MAX_BALANCE)
  }

  lemma ArithmeticIsExact(m: Machine, i: nat, cfg: Config)
    requires CoreInv(m, cfg) && Bounded(Abstract(m, cfg)) && i < cfg.offices
    ensures ExactArithmetic(m.bank, m.offices[i])
  {
    MemoryBounded(m, cfg);
    assert Knows(m.bank, m.offices[i], cfg);
    if m.offices[i].pc == Transferring(TCredit) {
      UndoneDebitIsExact(m, i, cfg);
    }
  }
}
