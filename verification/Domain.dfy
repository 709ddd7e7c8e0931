/** The account aggregate: events, commands, the decision function and replay. */
module Domain {
  import opened Wrappers

  /** Identifiers are opaque; only equality and (for cache shards) the remainder are used. */
  type Uuid = nat

  /** Decimal amounts as whole minor units. */
  type Money = int

  datatype AccountEvent =
    | AccountCreated(accountId: Uuid, ownerName: string, initialBalance: Money)
    | MoneyDeposited(accountId: Uuid, amount: Money, transactionId: Uuid)
    | MoneyWithdrawn(accountId: Uuid, amount: Money, transactionId: Uuid)
    | AccountClosed(accountId: Uuid, reason: string)

  datatype AccountCommand =
    | CreateAccount(accountId: Uuid, ownerName: string, initialBalance: Money)
    | DepositMoney(accountId: Uuid, amount: Money)
    | WithdrawMoney(accountId: Uuid, amount: Money)
    | CloseAccount(accountId: Uuid, reason: string)

  datatype AccountError =
    | InsufficientFunds(available: Money, requested: Money)
    | Closed
    | InvalidAmount(amount: Money)

  datatype Account = Account(id: Uuid, ownerName: string, balance: Money, isActive: bool, version: int)

  function DefaultAccount(id: Uuid): Account {
    Account(id, "", 0, false, 0)
  }

  function Apply(a: Account, e: AccountEvent): Account {
    var b := match e
      case AccountCreated(_, owner, initial) => a.(ownerName := owner, balance := initial, isActive := true)
      case MoneyDeposited(_, amount, _) => a.(balance := a.balance + amount)
      case MoneyWithdrawn(_, amount, _) => a.(balance := a.balance - amount)
      case AccountClosed(_, _) => a.(isActive := false);
    b.(version := a.version + 1)
  }

  /** `tid` is the fresh transaction id the source draws for deposits and withdrawals. */
  function HandleCommand(a: Account, c: AccountCommand, tid: Uuid): Result<seq<AccountEvent>, AccountError> {
    if !a.isActive && !c.CreateAccount? then Failure(Closed)
    else match c
      case CreateAccount(id, owner, initial) =>
        if initial < 0 then Failure(InvalidAmount(initial)) else Success([AccountCreated(id, owner, initial)])
      case DepositMoney(id, amount) =>
        if amount <= 0 then Failure(InvalidAmount(amount)) else Success([MoneyDeposited(id, amount, tid)])
      case WithdrawMoney(id, amount) =>
        if amount <= 0 then Failure(InvalidAmount(amount))
        else if a.balance < amount then Failure(InsufficientFunds(a.balance, amount))
        else Success([MoneyWithdrawn(id, amount, tid)])
      case CloseAccount(id, reason) => Success([AccountClosed(id, reason)])
  }

  function ApplyAll(a: Account, es: seq<AccountEvent>): Account {
    if es == [] then a else Apply(ApplyAll(a, es[..|es| - 1]), es[|es| - 1])
  }

  /** The account rebuilt from a whole log. */
  function Replay(id: Uuid, log: seq<AccountEvent>): Account {
    ApplyAll(DefaultAccount(id), log)
  }

  lemma {:induction false} ApplyAllConcat(a: Account, xs: seq<AccountEvent>, ys: seq<AccountEvent>)
    ensures ApplyAll(a, xs + ys) == ApplyAll(ApplyAll(a, xs), ys)
  {
    if ys == [] {
      assert xs + ys == xs;
    } else {
      assert (xs + ys)[..|xs + ys| - 1] == xs + ys[..|ys| - 1];
      ApplyAllConcat(a, xs, ys[..|ys| - 1]);
    }
  }

  /** Replay counts events in the version field and keeps the id. */
  lemma {:induction false} ReplayVersion(a: Account, es: seq<AccountEvent>)
    ensures ApplyAll(a, es).version == a.version + |es|
    ensures ApplyAll(a, es).id == a.id
  {
    if es != [] { ReplayVersion(a, es[..|es| - 1]); }
  }

  /** The account as the source holds it while replaying: its fields change in place. */
  class LiveAccount {
    const id: Uuid
    var ownerName: string
    var balance: Money
    var isActive: bool
    var version: int

    function Value(): Account
      reads this
    {
      Account(id, ownerName, balance, isActive, version)
    }

    constructor Default(id: Uuid)
      ensures Value() == DefaultAccount(id)
    {
      this.id := id;
      ownerName, balance, isActive, version := "", 0, false, 0;
    }

    method ApplyEvent(e: AccountEvent)
      modifies this
      ensures Value() == Apply(old(Value()), e)
    {
      match e {
        case AccountCreated(_, owner, initial) =>
          ownerName := owner;
          balance := initial;
          isActive := true;
        case MoneyDeposited(_, amount, _) =>
          balance := balance + amount;
        case MoneyWithdrawn(_, amount, _) =>
          balance := balance - amount;
        case AccountClosed(_, _) =>
          isActive := false;
      }
      version := version + 1;
    }
  }

  /** The events the decision function can emit on `a`, without naming a command. */
  predicate Permitted(a: Account, e: AccountEvent) {
    match e
    case AccountCreated(_, _, initial) => 0 <= initial
    case MoneyDeposited(_, amount, _) => a.isActive && 0 < amount
    case MoneyWithdrawn(_, amount, _) => a.isActive && 0 < amount <= a.balance
    case AccountClosed(_, _) => a.isActive
  }

  /** `e` is the whole answer of the decision function on `a` to some command. */
  ghost predicate DecidedOn(a: Account, e: AccountEvent) {
    exists c, tid :: HandleCommand(a, c, tid) == Success([e])
  }

  lemma PermittedIsDecided(a: Account, e: AccountEvent)
    ensures Permitted(a, e) <==> DecidedOn(a, e)
  {
    if Permitted(a, e) {
      var (c, tid) := match e
        case AccountCreated(id, owner, initial) => (CreateAccount(id, owner, initial), 0)
        case MoneyDeposited(id, amount, t) => (DepositMoney(id, amount), t)
        case MoneyWithdrawn(id, amount, t) => (WithdrawMoney(id, amount), t)
        case AccountClosed(id, reason) => (CloseAccount(id, reason), 0);
      assert HandleCommand(a, c, tid) == Success([e]);
    }
  }

  /** The balance a command asks for. */
  function AskedBalance(balance: Money, c: AccountCommand): Money {
    match c
    case CreateAccount(_, _, initial) => initial
    case DepositMoney(_, amount) => balance + amount
    case WithdrawMoney(_, amount) => balance - amount
    case CloseAccount(_, _) => balance
  }

  /** A successful answer does to the account what the command asks: its one event moves the balance, owner and activity so. */
  lemma DecisionTakesEffect(a: Account, c: AccountCommand, tid: Uuid)
    ensures var r := HandleCommand(a, c, tid); r.Success? ==>
      && |r.value| == 1 && r.value[0].accountId == c.accountId
      && var b := ApplyAll(a, r.value);
         && b.balance == AskedBalance(a.balance, c) && b.version == a.version + 1 && b.id == a.id
         && b.ownerName == (if c.CreateAccount? then c.ownerName else a.ownerName)
         && (b.isActive <==> !c.CloseAccount?)
  {
    var r := HandleCommand(a, c, tid);
    if r.Success? { assert r.value[..0] == []; }
  }

  /** Deposits and withdrawals carry the transaction id drawn for them, closures their reason. */
  lemma DecisionCarriesDetails(a: Account, c: AccountCommand, tid: Uuid)
    ensures var r := HandleCommand(a, c, tid); r.Success? ==>
      && (c.DepositMoney? || c.WithdrawMoney? ==>
            (r.value[0].MoneyDeposited? || r.value[0].MoneyWithdrawn?) && r.value[0].transactionId == tid)
      && (c.CloseAccount? ==> r.value[0].AccountClosed? && r.value[0].reason == c.reason)
      && (c.CreateAccount? <==> r.value[0].AccountCreated?)
  {}

  /** Before its first event an account refuses everything but its creation. */
  lemma UncreatedRefuses(id: Uuid, c: AccountCommand, tid: Uuid)
    ensures HandleCommand(Replay(id, []), c, tid) == Failure(Closed) <==> !c.CreateAccount?
  {}

  /** When a command is refused, and with which error; the first cause that applies is reported. */
  lemma RefusedExactlyWhen(a: Account, c: AccountCommand, tid: Uuid)
    ensures var r := HandleCommand(a, c, tid);
      && (r == Failure(Closed) <==> !a.isActive && !c.CreateAccount?)
      && (c.CreateAccount? ==> (r.Failure? <==> c.initialBalance < 0))
      && (c.CreateAccount? && r.Failure? ==> r.error == InvalidAmount(c.initialBalance))
      && ((c.DepositMoney? || c.WithdrawMoney?) && a.isActive ==> (r == Failure(InvalidAmount(c.amount)) <==> c.amount <= 0))
      && (c.DepositMoney? && a.isActive ==> (r.Failure? <==> c.amount <= 0))
      && (c.WithdrawMoney? && a.isActive && 0 < c.amount ==>
            (r.Failure? <==> a.balance < c.amount) && (r.Failure? ==> r.error == InsufficientFunds(a.balance, c.amount)))
      && (c.CloseAccount? && a.isActive ==> r.Success?)
  {}

  // ---------------------------------------------------------------------------
  // Histories: what a log of decided events can look like.
  // ---------------------------------------------------------------------------

  /** Every event was decided on exactly the fold of the events before it, and only the first creates. */
  predicate Legal(id: Uuid, log: seq<AccountEvent>) {
    forall i :: 0 <= i < |log| ==>
      Permitted(Replay(id, log[..i]), log[i]) && (log[i].AccountCreated? <==> i == 0)
  }

  lemma LegalPrefix(id: Uuid, log: seq<AccountEvent>, n: nat)
    requires Legal(id, log) && n <= |log|
    ensures Legal(id, log[..n])
  {
    forall i | 0 <= i < n
      ensures Permitted(Replay(id, log[..n][..i]), log[..n][i]) && (log[..n][i].AccountCreated? <==> i == 0)
    {
      assert log[..n][..i] == log[..i];
    }
  }

  lemma LegalAppend(id: Uuid, log: seq<AccountEvent>, e: AccountEvent)
    requires Legal(id, log) && Permitted(Replay(id, log), e) && (e.AccountCreated? <==> log == [])
    ensures Legal(id, log + [e])
  {
    var l := log + [e];
    forall i | 0 <= i < |l|
      ensures Permitted(Replay(id, l[..i]), l[i]) && (l[i].AccountCreated? <==> i == 0)
    {
      assert l[..i] == if i < |log| then log[..i] else log;
    }
  }

  lemma {:induction false} LegalNeverOverdrawn(id: Uuid, log: seq<AccountEvent>)
    requires Legal(id, log)
    ensures 0 <= Replay(id, log).balance
  {
    if log != [] {
      LegalPrefix(id, log, |log| - 1);
      LegalNeverOverdrawn(id, log[..|log| - 1]);
    }
  }

  /** A closing event is the last one: a closed account accepts nothing and never reopens. */
  lemma LegalClosedIsFinal(id: Uuid, log: seq<AccountEvent>, i: nat)
    requires Legal(id, log) && i + 1 < |log|
    ensures !log[i].AccountClosed?
  {
    assert log[..i + 1][..i] == log[..i];
    assert Replay(id, log[..i + 1]) == Apply(Replay(id, log[..i]), log[i]);
    assert Permitted(Replay(id, log[..i + 1]), log[i + 1]) && !log[i + 1].AccountCreated?;
  }

  /** The money an event brings in. */
  function Credit(e: AccountEvent): Money {
    match e
    case AccountCreated(_, _, initial) => initial
    case MoneyDeposited(_, amount, _) => amount
    case MoneyWithdrawn(_, amount, _) => -amount
    case AccountClosed(_, _) => 0
  }

  function Net(log: seq<AccountEvent>): Money {
    if log == [] then 0 else Net(log[..|log| - 1]) + Credit(log[|log| - 1])
  }

  /** Conservation: the replayed balance is the opening balance plus deposits minus withdrawals. */
  lemma {:induction false} LegalBalance(id: Uuid, log: seq<AccountEvent>)
    requires Legal(id, log)
    ensures Replay(id, log).balance == Net(log)
  {
    if log != [] {
      LegalPrefix(id, log, |log| - 1);
      LegalBalance(id, log[..|log| - 1]);
    }
  }
}
