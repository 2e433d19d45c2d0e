/** What each account must hold, read off the accepted requests alone: openings and
    incoming transfers less outgoing ones. */
module Statements {
  import opened BankTypes
  import opened Histories
  import opened AtomicBank
  import opened Linearizability
  import opened Money

  /** What an event does to the balance of account `a`. */
  function Entry(e: Event, a: int): int {
    if e.reply.code != Ok then 0
    else
      match e.req.op
      case CreateAccount(newId, balance, _) => if a == newId then balance else 0
      case Transfer(destId, amount) => (if a == destId then amount else 0) - (if a == e.req.id then amount else 0)
      case _ => 0
  }

  function Statement(events: seq<Event>, a: int): int {
    if events == [] then 0 else Statement(events[..|events| - 1], a) + Entry(events[|events| - 1], a)
  }

  lemma ModAdds(x: int, d: int)
    ensures (x % TWO_32 + d) % TWO_32 == (x + d) % TWO_32
  {
    assert x == TWO_32 * (x / TWO_32) + x % TWO_32;
    assert x + d == TWO_32 * (x / TWO_32) + (x % TWO_32 + d);
    SameRemainder(x % TWO_32 + d, x / TWO_32);
  }

  lemma SameRemainder(y: int, k: int)
    ensures (TWO_32 * k + y) % TWO_32 == y % TWO_32
  {
    var q, r := y / TWO_32, y % TWO_32;
    assert TWO_32 * k + y == TWO_32 * (k + q) + r;
    var z := TWO_32 * k + y;
    assert z == TWO_32 * (z / TWO_32) + z % TWO_32;
    assert TWO_32 * (k + q - z / TWO_32) == z % TWO_32 - r;
  }

  /** One request changes every account as its entry says. */
  lemma EntryIsExact(hash: Hasher, l: Ledger, e: Event, a: int)
    requires InRange(e.req, |l|) && 0 <= a < |l|
    requires e.reply == Exec(hash, l, e.req, e.salt, e.activeOffices).reply
    ensures var l' := Exec(hash, l, e.req, e.salt, e.activeOffices).ledger;
            && |l'| == |l|
            && BalanceAt(l', a) == (BalanceAt(l, a) + Entry(e, a)) % TWO_32
            && (Bounded(l) ==> BalanceAt(l', a) == BalanceAt(l, a) + Entry(e, a))
  {
    hide Exec;
    match e.req.op
    case CreateAccount(_, _, _) => OpeningExactly(hash, l, e.req, e.salt, e.activeOffices);
    case Balance => QueryExactly(hash, l, e.req, e.salt, e.activeOffices);
    case Transfer(_, _) =>
      TransferExactly(hash, l, e.req, e.salt, e.activeOffices);
      BoundedSumsFit(hash, l, e.req, e.salt, e.activeOffices);
    case Shutdown => ShutdownExactly(hash, l, e.req, e.salt, e.activeOffices);
  }

  lemma BoundedSumsFit(hash: Hasher, l: Ledger, req: Request, salt: Text, activeOffices: uint32)
    requires InRange(req, |l|) && req.op.Transfer?
    ensures Bounded(l) && Exec(hash, l, req, salt, activeOffices).reply.code == Ok ==>
              BalanceAt(l, req.op.destId) + req.op.amount < TWO_32
  {
  }

  /** Whatever the requests: every account holds its statement, modulo 2^32; and exactly
      its statement when only openings in range were accepted. */
  lemma {:induction false} StatementIsExact(hash: Hasher, l: Ledger, events: seq<Event>, a: int)
    requires EventsFit(events, |l|) && Legal(hash, l, events) && 0 <= a < |l|
    ensures BalanceAt(Replay(hash, l, events), a) == (BalanceAt(l, a) + Statement(events, a)) % TWO_32
    ensures Bounded(l) && ModestOpenings(events) ==>
              BalanceAt(Replay(hash, l, events), a) == BalanceAt(l, a) + Statement(events, a)
    decreases |events|
  {
    hide Exec, Bounded, Entry, Opened;
    if events != [] {
      var n, e := |events| - 1, events[|events| - 1];
      StatementIsExact(hash, l, events[..n], a);
      EntryIsExact(hash, Replay(hash, l, events[..n]), e, a);
      ModAdds(BalanceAt(l, a) + Statement(events[..n], a), Entry(e, a));
      if Bounded(l) && ModestOpenings(events) {
        ReplayConserves(hash, l, events[..n]);
      }
    }
  }

  /** The reply reports the sender's balance. */
  predicate ReportsBalance(req: Request, reply: Reply) {
    (req.op.Balance? || req.op.Transfer?) && reply.code == Ok
  }

  lemma ReportIsExact(hash: Hasher, l: Ledger, e: Event)
    requires InRange(e.req, |l|)
    requires e.reply == Exec(hash, l, e.req, e.salt, e.activeOffices).reply
    requires ReportsBalance(e.req, e.reply)
    ensures var l' := Exec(hash, l, e.req, e.salt, e.activeOffices).ledger;
            |l'| == |l| && e.reply.payload == BalanceAt(l', e.req.id)
  {
    hide Exec;
    if e.req.op.Balance? {
      QueryExactly(hash, l, e.req, e.salt, e.activeOffices);
    } else {
      TransferExactly(hash, l, e.req, e.salt, e.activeOffices);
    }
  }

  /** So a reported balance is the sender's statement at that point. */
  lemma ReportIsStatement(hash: Hasher, l: Ledger, events: seq<Event>, p: nat)
    requires EventsFit(events, |l|) && Legal(hash, l, events) && p < |events|
    requires ReportsBalance(events[p].req, events[p].reply)
    ensures var id := events[p].req.id;
            events[p].reply.payload == (BalanceAt(l, id) + Statement(events[..p + 1], id)) % TWO_32
  {
    hide Exec, ReportsBalance, Replay, Legal, Statement;
    LegalAt(hash, l, events, p);
    ReplayNext(hash, l, events, p);
    ReportIsExact(hash, Replay(hash, l, events[..p]), events[p]);
    LegalPrefix(hash, l, events, p + 1);
    StatementIsExact(hash, l, events[..p + 1], events[p].req.id);
  }
}
