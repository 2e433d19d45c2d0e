/** The bank as one indivisible operation per request: the reference that the
    interleaved offices are proved to refine. */
module AtomicBank {
  import opened BankTypes
  import opened Replies

  /** Entry `a` is the account with id `a`, if it was created. */
  type Ledger = seq<Option<Account>>

  datatype Outcome = Outcome(ledger: Ledger, reply: Reply)

  predicate WellFormed(l: Ledger) {
    && |l| > 0
    && l[ADMIN].Some?
    && forall a :: 0 <= a < |l| && l[a].Some? ==> l[a].value.id == a
  }

  predicate Bounded(l: Ledger) {
    forall a :: 0 <= a < |l| && l[a].Some? ==> l[a].value.balance <= MAX_BALANCE
  }

  function BalanceAt(l: Ledger, a: int): uint32
    requires 0 <= a < |l|
  {
    if l[a].Some? then l[a].value.balance else 0
  }

  function Total(l: Ledger): nat {
    if l == [] then 0 else Total(l[..|l| - 1]) + BalanceAt(l, |l| - 1)
  }

  predicate Authentic(hash: Hasher, l: Ledger, req: Request)
    requires req.id < |l|
  {
    l[req.id].Some? && hash(req.password, l[req.id].value.salt) == l[req.id].value.hash
  }

  function Credited(l: Ledger, a: uint32, amount: uint32): Ledger
    requires a < |l| && l[a].Some?
  {
    l[a := Some(l[a].value.(balance := Add32(l[a].value.balance, amount)))]
  }

  function Debited(l: Ledger, a: uint32, amount: uint32): Ledger
    requires a < |l| && l[a].Some?
  {
    l[a := Some(l[a].value.(balance := Sub32(l[a].value.balance, amount)))]
  }

  /** The whole effect of one request. `salt` is the random salt of an account that is
      created, `activeOffices` the count that an accepted shutdown reports. */
  function Exec(hash: Hasher, l: Ledger, req: Request, salt: Text, activeOffices: uint32): Outcome
    requires InRange(req, |l|)
  {
    if l[req.id].None? then
      Outcome(l, MakeErrorReply(IdNotFound, req))
    else if !Authentic(hash, l, req) then
      Outcome(l, MakeErrorReply(LoginFail, req))
    else
      match req.op
      case CreateAccount(newId, balance, newPassword) =>
        if req.id != ADMIN then Outcome(l, MakeErrorReply(OpNotAllowed, req))
        else if l[newId].Some? then Outcome(l, MakeErrorReply(IdInUse, req))
        else
          Outcome(l[newId := Some(Account(newId, hash(newPassword, salt), salt, balance))],
                  MakeCreateReply(req.id))
      case Balance =>
        if req.id == ADMIN then Outcome(l, MakeErrorReply(OpNotAllowed, req))
        else Outcome(l, MakeBalanceReply(req.id, l[req.id].value.balance))
      case Transfer(destId, amount) =>
        var code := TransferCode(l, req.id, destId, amount);
        var l' := if code == Ok then Credited(Debited(l, req.id, amount), destId, amount) else l;
        Outcome(l', MakeTransferReply(req.id, l'[req.id].value.balance, code))
      case Shutdown =>
        if req.id != ADMIN then Outcome(l, MakeErrorReply(OpNotAllowed, req))
        else Outcome(l, MakeShutdownReply(req.id, activeOffices))
  }

  function TransferCode(l: Ledger, id: uint32, destId: uint32, amount: uint32): RetCode
    requires id < |l| && destId < |l| && l[id].Some?
    ensures TransferCode(l, id, destId, amount) == Ok ==> l[destId].Some? && id != destId
  {
    if id == ADMIN then OpNotAllowed
    else if l[destId].None? then IdNotFound
    else if destId == ADMIN then OpNotAllowed
    else if id == destId then SameId
    else if l[id].value.balance < amount then NoFunds
    else if Add32(l[destId].value.balance, amount) > MAX_BALANCE then TooHigh
    else Ok
  }

  // ----- what every operation keeps -----

  /** Accounts are never removed, and only their balance ever changes. */
  predicate Extends(l: Ledger, l': Ledger) {
    && |l'| == |l|
    && forall a :: 0 <= a < |l| && l[a].Some? ==>
         l'[a].Some? && l'[a].value == l[a].value.(balance := l'[a].value.balance)
  }

  lemma ExecExtends(hash: Hasher, l: Ledger, req: Request, salt: Text, activeOffices: uint32)
    requires InRange(req, |l|) && WellFormed(l)
    ensures var out := Exec(hash, l, req, salt, activeOffices);
            && WellFormed(out.ledger) && Extends(l, out.ledger)
            && (out.reply.code != Ok ==> out.ledger == l)
            && out.reply.op == TypeOf(req.op) && out.reply.id == req.id
  {
  }

  // ----- the effect of each operation, in plain integers -----

  /** An accepted transfer takes the amount from the sender, gives it to the receiver
      (modulo 2^32), touches nothing else and reports the sender's new balance; a refused
      one changes nothing and, after a passed login, reports the balance there is. */
  lemma TransferExactly(hash: Hasher, l: Ledger, req: Request, salt: Text, activeOffices: uint32)
    requires InRange(req, |l|) && req.op.Transfer?
    ensures var out := Exec(hash, l, req, salt, activeOffices);
            var id, destId, amount := req.id, req.op.destId, req.op.amount;
            && |out.ledger| == |l| && out.reply.op == OpTransfer && out.reply.id == id
            && (out.reply.code == Ok ==>
                  && Authentic(hash, l, req) && l[destId].Some? && id != destId
                  && BalanceAt(out.ledger, id) == BalanceAt(l, id) - amount
                  && BalanceAt(out.ledger, destId) == (BalanceAt(l, destId) + amount) % TWO_32
                  && (forall a :: 0 <= a < |l| && a != id && a != destId ==> out.ledger[a] == l[a])
                  && out.reply.payload == BalanceAt(l, id) - amount)
            && (out.reply.code != Ok ==> out.ledger == l)
            && (out.reply.code != Ok && Authentic(hash, l, req) ==> out.reply.payload == BalanceAt(l, id))
  {
  }

  /** An accepted opening is the administrator's; the new account has the balance asked
      for and lets in exactly the passwords that hash like the new one. */
  lemma OpeningExactly(hash: Hasher, l: Ledger, req: Request, salt: Text, activeOffices: uint32)
    requires InRange(req, |l|) && req.op.CreateAccount?
    ensures var out := Exec(hash, l, req, salt, activeOffices);
            var newId, newPassword := req.op.newId, req.op.newPassword;
            && |out.ledger| == |l| && out.reply.op == OpCreate && out.reply.id == req.id
            && (out.reply.code == Ok ==>
                  && Authentic(hash, l, req) && req.id == ADMIN && l[newId].None?
                  && out.ledger[newId].Some? && out.ledger[newId].value.id == newId
                  && BalanceAt(out.ledger, newId) == req.op.balance
                  && (forall login: Request :: login.id == newId ==>
                        (Authentic(hash, out.ledger, login)
                         <==> hash(login.password, salt) == hash(newPassword, salt)))
                  && (forall a :: 0 <= a < |l| && a != newId ==> out.ledger[a] == l[a]))
            && (out.reply.code != Ok ==> out.ledger == l)
  {
  }

  /** A balance query changes nothing and, when answered, reports the balance. */
  lemma QueryExactly(hash: Hasher, l: Ledger, req: Request, salt: Text, activeOffices: uint32)
    requires InRange(req, |l|) && req.op.Balance?
    ensures var out := Exec(hash, l, req, salt, activeOffices);
            && out.ledger == l && out.reply.op == OpBalance && out.reply.id == req.id
            && (out.reply.code == Ok ==>
                  Authentic(hash, l, req) && req.id != ADMIN && out.reply.payload == BalanceAt(l, req.id))
  {
  }

  /** A shutdown changes no account; an accepted one is the administrator's and reports
      the count of active offices. */
  lemma ShutdownExactly(hash: Hasher, l: Ledger, req: Request, salt: Text, activeOffices: uint32)
    requires InRange(req, |l|) && req.op.Shutdown?
    ensures var out := Exec(hash, l, req, salt, activeOffices);
            && out.ledger == l && out.reply.op == OpShutdown && out.reply.id == req.id
            && (out.reply.code == Ok <==> Authentic(hash, l, req) && req.id == ADMIN)
            && (out.reply.code == Ok ==> out.reply.payload == activeOffices)
  {
  }

  // ----- conservation of money -----

  lemma {:induction false} TotalUpdate(l: Ledger, a: int, entry: Option<Account>)
    requires 0 <= a < |l|
    ensures Total(l[a := entry]) ==
            Total(l) - BalanceAt(l, a) + (if entry.Some? then entry.value.balance else 0)
  {
    var l' := l[a := entry];
    if a == |l| - 1 {
      assert l'[..|l| - 1] == l[..|l| - 1];
    } else {
      assert l'[..|l| - 1] == l[..|l| - 1][a := entry];
      TotalUpdate(l[..|l| - 1], a, entry);
    }
  }

  /** The money a request brings into the bank. */
  function Opened(req: Request, code: RetCode): nat {
    if req.op.CreateAccount? && code == Ok then req.op.balance else 0
  }

  /** A passing transfer whose credit exceeds 32 bits, told from the ledger alone. */
  predicate CreditWraps(hash: Hasher, l: Ledger, req: Request)
    requires InRange(req, |l|)
  {
    && req.op.Transfer?
    && Authentic(hash, l, req) && l[req.op.destId].Some?
    && req.id != ADMIN && req.op.destId != ADMIN && req.id != req.op.destId
    && l[req.id].value.balance >= req.op.amount
    && l[req.op.destId].value.balance + req.op.amount >= TWO_32
    && l[req.op.destId].value.balance + req.op.amount - TWO_32 <= MAX_BALANCE
  }

  lemma TransferTotal(l: Ledger, id: uint32, destId: uint32, amount: uint32)
    requires id < |l| && destId < |l| && l[id].Some? && TransferCode(l, id, destId, amount) == Ok
    ensures Total(Credited(Debited(l, id, amount), destId, amount)) ==
            Total(l) - (if l[destId].value.balance + amount >= TWO_32 then TWO_32 else 0)
  {
    var l1 := Debited(l, id, amount);
    TotalUpdate(l, id, l1[id]);
    TotalUpdate(l1, destId, Credited(l1, destId, amount)[destId]);
  }

  /** The money that a request destroys. */
  function Lost(hash: Hasher, l: Ledger, req: Request): nat
    requires InRange(req, |l|)
  {
    if CreditWraps(hash, l, req) then TWO_32 else 0
  }

  /** Money is neither made nor lost, exactly unless the credit wraps around; then 2^32
      disappears. */
  lemma ConservationExact(hash: Hasher, l: Ledger, req: Request, salt: Text, activeOffices: uint32)
    requires InRange(req, |l|)
    ensures var out := Exec(hash, l, req, salt, activeOffices);
            && Total(out.ledger) + Lost(hash, l, req) == Total(l) + Opened(req, out.reply.code)
            && (Total(out.ledger) == Total(l) + Opened(req, out.reply.code) <==> !CreditWraps(hash, l, req))
  {
    hide Total;
    if Authentic(hash, l, req) {
      match req.op
      case CreateAccount(newId, balance, newPassword) =>
        TotalUpdate(l, newId, Some(Account(newId, hash(newPassword, salt), salt, balance)));
      case Transfer(destId, amount) =>
        if TransferCode(l, req.id, destId, amount) == Ok {
          TransferTotal(l, req.id, destId, amount);
        }
      case _ =>
    }
  }

  /** An opening that the server accepts although its balance is above the maximum. */
  predicate OpensTooMuch(hash: Hasher, l: Ledger, req: Request)
    requires InRange(req, |l|)
  {
    && req.op.CreateAccount? && Authentic(hash, l, req) && req.id == ADMIN
    && l[req.op.newId].None? && req.op.balance > MAX_BALANCE
  }

  /** From balances in 0..MAX_BALANCE nothing wraps, so money is conserved; and a request
      leaves all balances in that range exactly unless it opens an account above it. */
  lemma BoundedExactly(hash: Hasher, l: Ledger, req: Request, salt: Text, activeOffices: uint32)
    requires InRange(req, |l|) && Bounded(l)
    ensures var out := Exec(hash, l, req, salt, activeOffices);
            && (Bounded(out.ledger) <==> !OpensTooMuch(hash, l, req))
            && (OpensTooMuch(hash, l, req) <==> Opened(req, out.reply.code) > MAX_BALANCE)
            && Lost(hash, l, req) == 0
            && Total(out.ledger) == Total(l) + Opened(req, out.reply.code)
  {
    hide Total, BalanceAt;
    ConservationExact(hash, l, req, salt, activeOffices);
    if OpensTooMuch(hash, l, req) {
      var l' := Exec(hash, l, req, salt, activeOffices).ledger;
      assert l'[req.op.newId].value.balance == req.op.balance;
    }
  }

  // ----- the documented choice of return code -----

  /** Which return codes apply, each judged on its own by its description in types.h. */
  predicate Applies(hash: Hasher, l: Ledger, req: Request, code: RetCode)
    requires InRange(req, |l|)
  {
    match code
    case LoginFail => !Authentic(hash, l, req)
    case OpNotAllowed =>
      match req.op {
        case CreateAccount(_, _, _) => req.id != ADMIN
        case Shutdown => req.id != ADMIN
        case Balance => req.id == ADMIN
        case Transfer(destId, _) => req.id == ADMIN || destId == ADMIN
      }
    case IdInUse => req.op.CreateAccount? && l[req.op.newId].Some?
    case IdNotFound => l[req.id].None? || (req.op.Transfer? && l[req.op.destId].None?)
    case SameId => req.op.Transfer? && req.op.destId == req.id
    case NoFunds =>
      req.op.Transfer? && BalanceAt(l, req.id) - req.op.amount < MIN_BALANCE
    case TooHigh =>
      req.op.Transfer? && l[req.op.destId].Some? && BalanceAt(l, req.op.destId) + req.op.amount > MAX_BALANCE
    case _ => false
  }

  /** If there is more than one error, the first in the list must be returned. */
  predicate FirstOf(hash: Hasher, l: Ledger, req: Request, code: RetCode)
    requires InRange(req, |l|)
  {
    && (code == Ok || Applies(hash, l, req, code))
    && forall other :: Applies(hash, l, req, other) ==> code != Ok && CodeNumber(code) <= CodeNumber(other)
  }

  /** A transfer, otherwise in order, of the whole balance. */
  predicate EmptiesAccount(hash: Hasher, l: Ledger, req: Request)
    requires InRange(req, |l|)
  {
    && req.op.Transfer?
    && Authentic(hash, l, req) && l[req.op.destId].Some?
    && req.id != ADMIN && req.op.destId != ADMIN && req.id != req.op.destId
    && l[req.id].value.balance == req.op.amount
  }

  /** The server returns the documented code exactly when the sender's account exists,
      the request does not empty it and the credit does not wrap: an unknown sender gets
      ID_NOT_FOUND where the list puts LOGIN_FAIL first, MIN_BALANCE is not enforced, and
      the 32-bit sum of the TOO_HIGH test may come out small. */
  lemma DocumentedCodeExact(hash: Hasher, l: Ledger, req: Request, salt: Text, activeOffices: uint32)
    requires InRange(req, |l|) && WellFormed(l)
    ensures FirstOf(hash, l, req, Exec(hash, l, req, salt, activeOffices).reply.code)
            <==> l[req.id].Some? && !EmptiesAccount(hash, l, req) && !CreditWraps(hash, l, req)
  {
    var code := Exec(hash, l, req, salt, activeOffices).reply.code;
    if l[req.id].None? {
      assert Applies(hash, l, req, LoginFail);
    } else if EmptiesAccount(hash, l, req) {
      assert Applies(hash, l, req, NoFunds);
    } else if CreditWraps(hash, l, req) {
      assert Applies(hash, l, req, TooHigh);
    } else {
      forall other | Applies(hash, l, req, other)
        ensures code != Ok && CodeNumber(code) <= CodeNumber(other)
      {
      }
    }
  }

  /** The code that is given in the three other cases. */
  lemma CodeOtherwise(hash: Hasher, l: Ledger, req: Request, salt: Text, activeOffices: uint32)
    requires InRange(req, |l|) && WellFormed(l)
    ensures var code := Exec(hash, l, req, salt, activeOffices).reply.code;
            && (l[req.id].None? ==> code == IdNotFound)
            && (EmptiesAccount(hash, l, req) ==>
                  code == if (BalanceAt(l, req.op.destId) + req.op.amount) % TWO_32 > MAX_BALANCE
                          then TooHigh else Ok)
            && (CreditWraps(hash, l, req) ==> code == Ok)
  {
  }

  // ----- inputs on which the documentation is not met -----

  function Ask(id: uint32, password: Text, op: Operation): Request {
    Request(0, id, password, 0, op)
  }

  /** A fresh bank with room for accounts 1 and 2; the administrator has this password. */
  function FreshLedger(hash: Hasher, password: Text, salt: Text): Ledger {
    [Some(Account(ADMIN, hash(password, salt), salt, 0)), None, None]
  }

  function Opening(newId: uint32, balance: uint32, password: Text): Request {
    Ask(ADMIN, password, CreateAccount(newId, balance, password))
  }

  /** The fresh bank after accounts 1 and 2 were opened, all with the same password. */
  function TwoOpened(hash: Hasher, first: uint32, second: uint32, password: Text, salt: Text): (l: Ledger)
    ensures |l| == 3
  {
    var l1 := Exec(hash, FreshLedger(hash, password, salt), Opening(1, first, password), salt, 0).ledger;
    Exec(hash, l1, Opening(2, second, password), salt, 0).ledger
  }

  /** Account 1 was never opened: the list asks for LOGIN_FAIL, the server says otherwise. */
  lemma UnknownSenderExample(hash: Hasher, password: Text, salt: Text)
    ensures var l, req := FreshLedger(hash, password, salt), Ask(1, password, Balance);
            var code := Exec(hash, l, req, salt, 0).reply.code;
            && WellFormed(l) && code == IdNotFound
            && Applies(hash, l, req, LoginFail) && !FirstOf(hash, l, req, code)
  {
    var l, req := FreshLedger(hash, password, salt), Ask(1, password, Balance);
    assert Applies(hash, l, req, LoginFail);
  }

  /** An oversize opening, but from an account that does not exist: it is refused, and
      the balances stay bounded. */
  lemma RefusedOpeningExample(hash: Hasher, password: Text, salt: Text)
    ensures var l := FreshLedger(hash, password, salt);
            var req := Ask(1, password, CreateAccount(2, 0xFFFF_FFFF, password));
            var out := Exec(hash, l, req, salt, 0);
            && !BoundedOpening(req) && !OpensTooMuch(hash, l, req)
            && out.reply.code == IdNotFound && out.ledger == l && Bounded(l)
  {
  }

  /** Account 1 sends away all it has. */
  lemma EmptiedAccountExample(hash: Hasher, password: Text, salt: Text)
    ensures var l, req := TwoOpened(hash, 500, 1, password, salt), Ask(1, password, Transfer(2, 500));
            var out := Exec(hash, l, req, salt, 0);
            && WellFormed(l) && Bounded(l) && out.reply.code == Ok && BalanceAt(out.ledger, 1) < MIN_BALANCE
            && Applies(hash, l, req, NoFunds) && !FirstOf(hash, l, req, out.reply.code)
  {
    var l, req := TwoOpened(hash, 500, 1, password, salt), Ask(1, password, Transfer(2, 500));
    assert Applies(hash, l, req, NoFunds);
  }

  /** Openings that no client lets through, but the server does: the credit of account 2
      wraps, and 2^32 of the money is gone. */
  lemma WrappedCreditExample(hash: Hasher, password: Text, salt: Text)
    ensures var l := TwoOpened(hash, 0xFFFF_FFFF, 0xFFFF_FFFF, password, salt);
            var req := Ask(1, password, Transfer(2, 1));
            var out := Exec(hash, l, req, salt, 0);
            && WellFormed(l) && CreditWraps(hash, l, req) && out.reply.code == Ok
            && BalanceAt(l, 2) == 0xFFFF_FFFF && BalanceAt(out.ledger, 2) == 0
            && Total(out.ledger) == Total(l) - TWO_32
            && Applies(hash, l, req, TooHigh) && !FirstOf(hash, l, req, out.reply.code)
  {
    var l := TwoOpened(hash, 0xFFFF_FFFF, 0xFFFF_FFFF, password, salt);
    var req := Ask(1, password, Transfer(2, 1));
    assert Applies(hash, l, req, TooHigh);
    ConservationExact(hash, l, req, salt, 0);
  }
}
