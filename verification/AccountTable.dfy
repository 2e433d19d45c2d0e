/** The account table of PROJ2/src/accounts.c and the request handlers of
    PROJ2/src/bankoffice.c as sequential code on it, proved against AtomicBank. */
module AccountTables {
  import opened BankTypes
  import opened Replies
  import opened AtomicBank

  class AccountTable {
    const hash: Hasher
    const accounts: array<Account>
    const usedAccounts: array<bool>

    ghost predicate Consistent()
      reads this
    {
      accounts.Length == usedAccounts.Length
    }

    ghost function Entries(): (l: Ledger)
      requires Consistent()
      reads this, accounts, usedAccounts
      ensures |l| == accounts.Length
    {
      seq(accounts.Length, a requires 0 <= a < accounts.Length
                             reads this, accounts, usedAccounts
                             requires Consistent() => if usedAccounts[a] then Some(accounts[a]) else None)
    }

    /** `setupAccounts`: an empty table, then the administrator's account. */
    constructor (size: nat, hash: Hasher, adminPassword: Text, salt: Text)
      requires 0 < size <= MAX_BANK_ACCOUNTS
      ensures Consistent() && fresh(accounts) && fresh(usedAccounts) && accounts.Length == size
      ensures this.hash == hash
      ensures WellFormed(Entries())
      ensures Entries() == seq(size, a => if a == 0
                                          then Some(Account(ADMIN, hash(adminPassword, salt), salt, 0))
                                          else None)
    {
      this.hash := hash;
      accounts := new Account[size];
      usedAccounts := new bool[size];
      new;
      ClearAccounts();
      CreateAccount(ADMIN, 0, adminPassword, salt);
    }

    method ClearAccounts()
      requires Consistent()
      modifies usedAccounts
      ensures Entries() == seq(accounts.Length, a => None)
    {
      for i := 0 to usedAccounts.Length
        invariant forall a :: 0 <= a < i ==> !usedAccounts[a]
      {
        usedAccounts[i] := false;
      }
    }

    method CreateAccount(id: uint32, balance: uint32, password: Text, salt: Text)
      requires Consistent() && id < accounts.Length
      modifies accounts, usedAccounts
      ensures Entries() == old(Entries())[id := Some(Account(id, hash(password, salt), salt, balance))]
    {
      accounts[id] := Account(id, hash(password, salt), salt, balance);
      usedAccounts[id] := true;
    }

    /** `validateAccount`: None when the login passes. */
    method ValidateAccount(req: Request) returns (error: Option<Reply>)
      requires Consistent() && req.id < accounts.Length
      ensures error.None? <==> Authentic(hash, Entries(), req)
      ensures error.Some? ==>
                error.value == MakeErrorReply(if Entries()[req.id].None? then IdNotFound else LoginFail, req)
    {
      if !usedAccounts[req.id] {
        return Some(MakeErrorReply(IdNotFound, req));
      }
      if hash(req.password, accounts[req.id].salt) != accounts[req.id].hash {
        return Some(MakeErrorReply(LoginFail, req));
      }
      return None;
    }

    method HandleCreateAccountRequest(req: Request, salt: Text) returns (reply: Reply)
      requires Consistent() && req.op.CreateAccount? && InRange(req, accounts.Length)
      requires Authentic(hash, Entries(), req)
      modifies accounts, usedAccounts
      ensures Outcome(Entries(), reply) == Exec(hash, old(Entries()), req, salt, 0)
    {
      if req.id != ADMIN {
        return MakeErrorReply(OpNotAllowed, req);
      }
      if usedAccounts[req.op.newId] {
        return MakeErrorReply(IdInUse, req);
      }
      CreateAccount(req.op.newId, req.op.balance, req.op.newPassword, salt);
      return MakeCreateReply(req.id);
    }

    method HandleTransferRequest(req: Request) returns (reply: Reply)
      requires Consistent() && req.op.Transfer? && InRange(req, accounts.Length)
      requires Authentic(hash, Entries(), req) && WellFormed(Entries())
      modifies accounts
      ensures Outcome(Entries(), reply) == Exec(hash, old(Entries()), req, [], 0)
    {
      var src, dest, amount := req.id, req.op.destId, req.op.amount;
      assert Entries()[src] == Some(accounts[src]);
      assert usedAccounts[dest] ==> Entries()[dest] == Some(accounts[dest]);
      if accounts[src].id == ADMIN {
        return MakeTransferReply(accounts[src].id, accounts[src].balance, OpNotAllowed);
      }
      if !usedAccounts[dest] {
        return MakeTransferReply(accounts[src].id, accounts[src].balance, IdNotFound);
      }
      if accounts[dest].id == ADMIN {
        return MakeTransferReply(accounts[src].id, accounts[src].balance, OpNotAllowed);
      }
      if accounts[src].id == dest {
        return MakeTransferReply(accounts[src].id, accounts[src].balance, SameId);
      }
      if accounts[src].balance < amount {
        return MakeTransferReply(accounts[src].id, accounts[src].balance, NoFunds);
      }
      if Add32(accounts[dest].balance, amount) > MAX_BALANCE {
        return MakeTransferReply(accounts[src].id, accounts[src].balance, TooHigh);
      }
      ghost var before := Entries();
      accounts[src] := accounts[src].(balance := Sub32(accounts[src].balance, amount));
      accounts[dest] := accounts[dest].(balance := Add32(accounts[dest].balance, amount));
      assert Entries() == Credited(Debited(before, src, amount), dest, amount);
      return MakeTransferReply(accounts[src].id, accounts[src].balance, Ok);
    }

    method HandleBalanceRequest(req: Request) returns (reply: Reply)
      requires Consistent() && req.op.Balance? && req.id < accounts.Length
      requires Authentic(hash, Entries(), req) && WellFormed(Entries())
      ensures Outcome(Entries(), reply) == Exec(hash, Entries(), req, [], 0)
    {
      if req.id == ADMIN {
        return MakeErrorReply(OpNotAllowed, req);
      }
      assert Entries()[req.id] == Some(accounts[req.id]);
      return MakeBalanceReply(accounts[req.id].id, accounts[req.id].balance);
    }

    /** `manageRequest` run alone. */
    method ManageRequest(req: Request, salt: Text, activeOffices: uint32) returns (reply: Reply)
      requires Consistent() && InRange(req, accounts.Length) && WellFormed(Entries())
      modifies accounts, usedAccounts
      ensures Outcome(Entries(), reply) == Exec(hash, old(Entries()), req, salt, activeOffices)
    {
      var error := ValidateAccount(req);
      if error.Some? {
        return error.value;
      }
      match req.op {
        case CreateAccount(_, _, _) =>
          reply := HandleCreateAccountRequest(req, salt);
        case Balance =>
          reply := HandleBalanceRequest(req);
        case Transfer(_, _) =>
          reply := HandleTransferRequest(req);
        case Shutdown =>
          reply := if req.id == ADMIN then MakeShutdownReply(req.id, activeOffices)
                   else MakeErrorReply(OpNotAllowed, req);
      }
    }
  }
}
