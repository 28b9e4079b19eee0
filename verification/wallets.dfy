/** Sub-wallets, the master's free balance and the append-only ledger: creation, purchases, earnings, top-ups and
    the automatic top-up of a worker tick. Amounts are micro units; days are numbered. */
module Wallets {
  import opened Prelude

  /** Automatic top-up: below `threshold` a tick grants `amount`, at most `maxPerDay` a day. */
  datatype Policy = Policy(threshold: int, amount: int, maxPerDay: int)

  datatype Wallet = Wallet(
    index: nat,
    address: string,
    allotted: int,
    spent: int,
    earned: int,
    active: bool,
    auto: bool,
    policy: Policy,
    consumed: int,
    consumedDay: Option<int>)

  datatype Kind = TopupKind | PurchaseKind | EarnKind

  /** A ledger row; purchases are recorded as negative amounts. */
  datatype Entry = Entry(agent: string, kind: Kind, amount: int)

  datatype BankError = NotPositive | NoActiveWallet | NoWallet | Insufficient | IndexTaken | AgentTaken | AddressTaken | TransactionFailed

  /** `indexes`: every HD index ever occupied, in order. `charges`: costs of messages sent from the interface,
      which enter `spent` without a ledger row. `grants`: automatic top-ups, which have no ledger row either. */
  datatype Books = Books(
    free: int,
    wallets: map<string, Wallet>,
    ledger: seq<Entry>,
    indexes: seq<nat>,
    charges: seq<Charge>,
    grants: seq<Grant>)

  datatype Charge = Charge(agent: string, amount: int)

  datatype Grant = Grant(agent: string, day: int, amount: int)

  function Balance(w: Wallet): int {
    w.allotted - w.spent + w.earned
  }

  // ---------------------------------------------------------------- sums

  function Total(ledger: seq<Entry>, agent: Option<string>, kind: Kind): int {
    if ledger == [] then 0
    else
      var e := ledger[|ledger| - 1];
      Total(ledger[..|ledger| - 1], agent, kind)
      + (if e.kind == kind && (agent.None? || agent.value == e.agent) then e.amount else 0)
  }

  function Charged(charges: seq<Charge>, agent: string): int {
    if charges == [] then 0
    else
      var e := charges[|charges| - 1];
      Charged(charges[..|charges| - 1], agent) + (if e.agent == agent then e.amount else 0)
  }

  function Granted(grants: seq<Grant>, agent: string): int {
    if grants == [] then 0
    else
      var e := grants[|grants| - 1];
      Granted(grants[..|grants| - 1], agent) + (if e.agent == agent then e.amount else 0)
  }

  function GrantedOn(grants: seq<Grant>, agent: string, day: int): int {
    if grants == [] then 0
    else
      var e := grants[|grants| - 1];
      GrantedOn(grants[..|grants| - 1], agent, day) + (if e.agent == agent && e.day == day then e.amount else 0)
  }

  lemma TotalAppend(ledger: seq<Entry>, e: Entry, agent: Option<string>, kind: Kind)
    ensures Total(ledger + [e], agent, kind)
         == Total(ledger, agent, kind) + (if e.kind == kind && (agent.None? || agent.value == e.agent) then e.amount else 0)
  {
    assert (ledger + [e])[..|ledger|] == ledger;
  }

  lemma ChargedAppend(charges: seq<Charge>, e: Charge, agent: string)
    ensures Charged(charges + [e], agent) == Charged(charges, agent) + (if e.agent == agent then e.amount else 0)
  {
    assert (charges + [e])[..|charges|] == charges;
  }

  lemma GrantedAppend(grants: seq<Grant>, e: Grant, agent: string, day: int)
    ensures Granted(grants + [e], agent) == Granted(grants, agent) + (if e.agent == agent then e.amount else 0)
    ensures GrantedOn(grants + [e], agent, day)
         == GrantedOn(grants, agent, day) + (if e.agent == agent && e.day == day then e.amount else 0)
  {
    assert (grants + [e])[..|grants|] == grants;
  }

  /** Sum of one amount over the wallets of a set of agents. */
  ghost function SumOver(agents: set<string>, amount: string -> int): int {
    if agents == {} then 0
    else
      var a :| a in agents;
      amount(a) + SumOver(agents - {a}, amount)
  }

  lemma {:induction false} SumTakeOut(agents: set<string>, amount: string -> int, a: string)
    requires a in agents
    ensures SumOver(agents, amount) == amount(a) + SumOver(agents - {a}, amount)
    decreases |agents|
  {
    var b :| b in agents && SumOver(agents, amount) == amount(b) + SumOver(agents - {b}, amount);
    if b != a {
      SumTakeOut(agents - {b}, amount, a);
      SumTakeOut(agents - {a}, amount, b);
      assert agents - {b} - {a} == agents - {a} - {b};
    }
  }

  lemma {:induction false} SumSame(agents: set<string>, f: string -> int, g: string -> int)
    requires forall a :: a in agents ==> f(a) == g(a)
    ensures SumOver(agents, f) == SumOver(agents, g)
    decreases |agents|
  {
    if agents != {} {
      var a :| a in agents;
      SumTakeOut(agents, f, a);
      SumTakeOut(agents, g, a);
      SumSame(agents - {a}, f, g);
    }
  }

  // ---------------------------------------------------------------- operations

  function Debit(b: Books, agent: string, amount: int): Result<Books, BankError> {
    if amount <= 0 then Err(NotPositive)
    else if agent !in b.wallets || !b.wallets[agent].active then Err(NoActiveWallet)
    else if Balance(b.wallets[agent]) < amount then Err(Insufficient)
    else
      var w := b.wallets[agent];
      Ok(b.(wallets := b.wallets[agent := w.(spent := w.spent + amount)],
            ledger := b.ledger + [Entry(agent, PurchaseKind, -amount)]))
  }

  /** An earning is credited whatever the wallet's status. */
  function Credit(b: Books, agent: string, amount: int): Result<Books, BankError> {
    if amount <= 0 then Err(NotPositive)
    else if agent !in b.wallets then Err(NoWallet)
    else
      var w := b.wallets[agent];
      Ok(b.(wallets := b.wallets[agent := w.(earned := w.earned + amount)],
            ledger := b.ledger + [Entry(agent, EarnKind, amount)]))
  }

  /** Neither the agent nor the sign of the amount is checked. */
  function Topup(b: Books, agent: string, amount: int): Books {
    b.(free := b.free - amount,
       wallets := if agent in b.wallets
                  then b.wallets[agent := b.wallets[agent].(allotted := b.wallets[agent].allotted + amount)]
                  else b.wallets,
       ledger := b.ledger + [Entry(agent, TopupKind, amount)])
  }

  /** The cost of a message sent from the interface: no balance check, no ledger row. */
  function ChargeSend(b: Books, agent: string, amount: int): Books {
    if agent !in b.wallets then b
    else
      var w := b.wallets[agent];
      b.(wallets := b.wallets[agent := w.(spent := w.spent + amount)], charges := b.charges + [Charge(agent, amount)])
  }

  function NextIndex(indexes: seq<nat>): nat {
    if indexes == [] then 0
    else Max(NextIndex(indexes[..|indexes| - 1]), indexes[|indexes| - 1] + 1)
  }

  predicate AddressUsed(wallets: map<string, Wallet>, address: string) {
    exists a :: a in wallets && wallets[a].address == address
  }

  function Create(b: Books, agent: string, index: Option<nat>, address: string, policy: Policy): Result<Books, BankError> {
    var i := if index.Some? then index.value else NextIndex(b.indexes);
    if i in b.indexes then Err(IndexTaken)
    else if agent in b.wallets then Err(AgentTaken)
    else if AddressUsed(b.wallets, address) then Err(AddressTaken)
    else
      Ok(b.(wallets := b.wallets[agent := Wallet(i, address, 0, 0, 0, true, false, policy, 0, None)],
            indexes := b.indexes + [i]))
  }

  /** Operators switch a wallet and its automatic top-up on and off; the amounts of the policy are fixed. */
  function Configure(b: Books, agent: string, active: bool, auto: bool): Books {
    if agent in b.wallets then b.(wallets := b.wallets[agent := b.wallets[agent].(active := active, auto := auto)]) else b
  }

  function ResetDay(b: Books, today: int): Books {
    b.(wallets := map a | a in b.wallets ::
      if b.wallets[a].consumedDay != Some(today)
      then b.wallets[a].(consumed := 0, consumedDay := Some(today)) else b.wallets[a])
  }

  /** What one tick grants a wallet. */
  function GrantFor(w: Wallet): int {
    if w.auto && w.active && Balance(w) < w.policy.threshold && w.policy.maxPerDay - w.consumed > 0
    then Min(w.policy.amount, w.policy.maxPerDay - w.consumed) else 0
  }

  predicate GetsGrant(w: Wallet) {
    w.auto && w.active && Balance(w) < w.policy.threshold && w.policy.maxPerDay - w.consumed > 0
  }

  function GrantOne(b: Books, agent: string, today: int): Books {
    if agent !in b.wallets || !GetsGrant(b.wallets[agent]) then b
    else
      var w := b.wallets[agent];
      var g := GrantFor(w);
      b.(free := b.free - g,
         wallets := b.wallets[agent := w.(allotted := w.allotted + g, consumed := w.consumed + g)],
         grants := b.grants + [Grant(agent, today, g)])
  }

  function GrantAll(b: Books, order: seq<string>, today: int): Books {
    if order == [] then b
    else GrantOne(GrantAll(b, order[..|order| - 1], today), order[|order| - 1], today)
  }

  function AutoTopup(b: Books, order: seq<string>, today: int): Books {
    GrantAll(ResetDay(b, today), order, today)
  }

  // ---------------------------------------------------------------- runs

  datatype Op =
    | CreateOp(agent: string, index: Option<nat>, address: string, policy: Policy)
    | DebitOp(agent: string, amount: int)
    | CreditOp(agent: string, amount: int)
    | TopupOp(agent: string, amount: int)
    | ChargeOp(agent: string, amount: int)
    | ConfigureOp(agent: string, active: bool, auto: bool)
    | AutoOp(today: int, order: seq<string>)

  function OrSame(r: Result<Books, BankError>, b: Books): Books {
    if r.Ok? then r.value else b
  }

  /** A refused operation changes nothing. */
  function Do(b: Books, op: Op): Books {
    match op
    case CreateOp(agent, index, address, policy) => OrSame(Create(b, agent, index, address, policy), b)
    case DebitOp(agent, amount) => OrSame(Debit(b, agent, amount), b)
    case CreditOp(agent, amount) => OrSame(Credit(b, agent, amount), b)
    case TopupOp(agent, amount) => Topup(b, agent, amount)
    case ChargeOp(agent, amount) => ChargeSend(b, agent, amount)
    case ConfigureOp(agent, active, auto) => Configure(b, agent, active, auto)
    case AutoOp(today, order) => AutoTopup(b, order, today)
  }

  function Run(b: Books, ops: seq<Op>): Books {
    if ops == [] then b else Do(Run(b, ops[..|ops| - 1]), ops[|ops| - 1])
  }

  function Opened(free: int): Books {
    Books(free, map[], [], [], [], [])
  }

  // ---------------------------------------------------------------- the ledger explains spending and earning

  /** Spent is the ledger's purchases and the unrecorded charges, earned is the ledger's earnings. */
  ghost predicate LedgerExplains(b: Books, a: string) {
    if a in b.wallets then
      && b.wallets[a].spent == -Total(b.ledger, Some(a), PurchaseKind) + Charged(b.charges, a)
      && b.wallets[a].earned == Total(b.ledger, Some(a), EarnKind)
    else Total(b.ledger, Some(a), PurchaseKind) == 0 && Total(b.ledger, Some(a), EarnKind) == 0 && Charged(b.charges, a) == 0
  }

  ghost predicate SameBut(b: Books, z: Books) {
    && z.ledger == b.ledger && z.charges == b.charges && z.indexes == b.indexes && z.wallets.Keys == b.wallets.Keys
    && forall a :: a in b.wallets ==>
         z.wallets[a].spent == b.wallets[a].spent && z.wallets[a].earned == b.wallets[a].earned
         && z.wallets[a].policy == b.wallets[a].policy && z.wallets[a].index == b.wallets[a].index
  }

  lemma {:induction false} GrantAllSame(b: Books, order: seq<string>, today: int)
    ensures SameBut(b, GrantAll(b, order, today))
  {
    if order != [] {
      GrantAllSame(b, order[..|order| - 1], today);
    }
  }

  lemma DebitKeepsLedgerExplains(b: Books, agent: string, amount: int, a: string)
    requires LedgerExplains(b, a) && Debit(b, agent, amount).Ok?
    ensures LedgerExplains(Debit(b, agent, amount).value, a)
  {
    TotalAppend(b.ledger, Entry(agent, PurchaseKind, -amount), Some(a), PurchaseKind);
    TotalAppend(b.ledger, Entry(agent, PurchaseKind, -amount), Some(a), EarnKind);
  }

  lemma CreditKeepsLedgerExplains(b: Books, agent: string, amount: int, a: string)
    requires LedgerExplains(b, a) && Credit(b, agent, amount).Ok?
    ensures LedgerExplains(Credit(b, agent, amount).value, a)
  {
    TotalAppend(b.ledger, Entry(agent, EarnKind, amount), Some(a), PurchaseKind);
    TotalAppend(b.ledger, Entry(agent, EarnKind, amount), Some(a), EarnKind);
  }

  lemma TopupKeepsLedgerExplains(b: Books, agent: string, amount: int, a: string)
    requires LedgerExplains(b, a)
    ensures LedgerExplains(Topup(b, agent, amount), a)
  {
    TotalAppend(b.ledger, Entry(agent, TopupKind, amount), Some(a), PurchaseKind);
    TotalAppend(b.ledger, Entry(agent, TopupKind, amount), Some(a), EarnKind);
  }

  lemma ChargeKeepsLedgerExplains(b: Books, agent: string, amount: int, a: string)
    requires LedgerExplains(b, a)
    ensures LedgerExplains(ChargeSend(b, agent, amount), a)
  {
    ChargedAppend(b.charges, Charge(agent, amount), a);
  }

  lemma OpKeepsLedgerExplains(b: Books, op: Op, a: string)
    requires LedgerExplains(b, a)
    ensures LedgerExplains(Do(b, op), a)
  {
    match op {
      case CreateOp(_, _, _, _) =>
      case DebitOp(agent, amount) =>
        if Debit(b, agent, amount).Ok? {
          DebitKeepsLedgerExplains(b, agent, amount, a);
        }
      case CreditOp(agent, amount) =>
        if Credit(b, agent, amount).Ok? {
          CreditKeepsLedgerExplains(b, agent, amount, a);
        }
      case TopupOp(agent, amount) => TopupKeepsLedgerExplains(b, agent, amount, a);
      case ChargeOp(agent, amount) => ChargeKeepsLedgerExplains(b, agent, amount, a);
      case ConfigureOp(_, _, _) =>
      case AutoOp(today, order) => GrantAllSame(ResetDay(b, today), order, today);
    }
  }

  /** In every run a wallet's earned amount is the sum of its earnings in the ledger, and its spent amount is the
      sum of its purchases there exactly when the charges of sent messages, which skip the ledger, sum to zero. */
  lemma {:induction false} LedgerMatchesWallets(free: int, ops: seq<Op>, a: string)
    ensures LedgerExplains(Run(Opened(free), ops), a)
    ensures var b := Run(Opened(free), ops);
      a in b.wallets ==>
        && b.wallets[a].earned == Total(b.ledger, Some(a), EarnKind)
        && (b.wallets[a].spent == -Total(b.ledger, Some(a), PurchaseKind) <==> Charged(b.charges, a) == 0)
  {
    if ops != [] {
      LedgerMatchesWallets(free, ops[..|ops| - 1], a);
      OpKeepsLedgerExplains(Run(Opened(free), ops[..|ops| - 1]), ops[|ops| - 1], a);
    }
  }

  // ---------------------------------------------------------------- balances

  /** A new policy grants no negative amount. */
  predicate Sensible(op: Op) {
    op.CreateOp? ==> op.policy.amount >= 0 && op.policy.maxPerDay >= 0
  }

  predicate SensibleRun(ops: seq<Op>) {
    forall i :: 0 <= i < |ops| ==> Sensible(ops[i])
  }

  /** The agent's wallet is not overdrawn. */
  ghost predicate Solvent(b: Books, a: string) {
    a in b.wallets ==> Balance(b.wallets[a]) >= 0
  }

  /** The consumption of the day is within the daily maximum. */
  ghost predicate WithinDay(b: Books, a: string) {
    a in b.wallets ==>
      var w := b.wallets[a];
      w.policy.amount >= 0 && 0 <= w.consumed <= w.policy.maxPerDay
  }

  lemma {:induction false} GrantAllKeepsWithinDay(b: Books, order: seq<string>, today: int, a: string)
    requires WithinDay(b, a)
    ensures WithinDay(GrantAll(b, order, today), a)
    ensures Solvent(b, a) ==> Solvent(GrantAll(b, order, today), a)
  {
    if order != [] {
      GrantAllKeepsWithinDay(b, order[..|order| - 1], today, a);
    }
  }

  lemma OpKeepsWithinDay(b: Books, op: Op, a: string)
    requires WithinDay(b, a) && Sensible(op)
    ensures WithinDay(Do(b, op), a)
  {
    if op.AutoOp? {
      GrantAllKeepsWithinDay(ResetDay(b, op.today), op.order, op.today, a);
    }
  }

  /** With fixed limits, any number of ticks on any days keeps each wallet's consumption of the day within its
      maximum. */
  lemma {:induction false} DailyLimitHolds(free: int, ops: seq<Op>, a: string)
    requires SensibleRun(ops)
    ensures WithinDay(Run(Opened(free), ops), a)
  {
    if ops != [] {
      var n := |ops| - 1;
      assert SensibleRun(ops[..n]);
      DailyLimitHolds(free, ops[..n], a);
      OpKeepsWithinDay(Run(Opened(free), ops[..n]), ops[n], a);
    }
  }

  /** The guard the code lacks: the operation charges the agent's wallet, or tops it up by a negative amount, for
      more than its balance. */
  predicate Exceeds(b: Books, op: Op, a: string) {
    && a in b.wallets
    && (|| (op.ChargeOp? && op.agent == a && Balance(b.wallets[a]) < op.amount)
        || (op.TopupOp? && op.agent == a && Balance(b.wallets[a]) < -op.amount))
  }

  /** One operation overdraws a wallet exactly when it exceeds the balance it meets; purchases, earnings and
      automatic top-ups never do. */
  lemma OverdrawnOnlyBy(b: Books, op: Op, a: string)
    requires Solvent(b, a) && WithinDay(b, a) && Sensible(op)
    ensures Solvent(Do(b, op), a) <==> !Exceeds(b, op, a)
  {
    if op.AutoOp? {
      GrantAllKeepsWithinDay(ResetDay(b, op.today), op.order, op.today, a);
    }
  }

  /** The wallet is solvent after each of the first `n` operations. */
  ghost predicate SolventUpTo(free: int, ops: seq<Op>, a: string, n: nat)
    requires n <= |ops|
  {
    forall k :: 0 <= k <= n ==> Solvent(Run(Opened(free), ops[..k]), a)
  }

  predicate FitsAt(free: int, ops: seq<Op>, a: string, k: nat)
    requires k < |ops|
  {
    !Exceeds(Run(Opened(free), ops[..k]), ops[k], a)
  }

  lemma {:induction false} SolventAsLongAs(free: int, ops: seq<Op>, a: string, n: nat)
    requires SensibleRun(ops) && n <= |ops|
    ensures SolventUpTo(free, ops, a, n) <==> forall k :: 0 <= k < n ==> FitsAt(free, ops, a, k)
  {
    if n > 0 {
      SolventAsLongAs(free, ops, a, n - 1);
      var b := Run(Opened(free), ops[..n - 1]);
      DailyLimitHolds(free, ops[..n - 1], a);
      assert ops[..n][..n - 1] == ops[..n - 1];
      assert Run(Opened(free), ops[..n]) == Do(b, ops[n - 1]);
      if SolventUpTo(free, ops, a, n - 1) {
        OverdrawnOnlyBy(b, ops[n - 1], a);
        assert FitsAt(free, ops, a, n - 1) <==> Solvent(Do(b, ops[n - 1]), a);
      }
    }
  }

  /** Over whole runs, with limits that are not negative: each wallet's consumption stays within its daily maximum,
      and a wallet is never overdrawn if and only if no charge and no negative top-up exceeds the balance it
      meets. */
  lemma BalancesAndLimits(free: int, ops: seq<Op>, a: string)
    requires SensibleRun(ops)
    ensures WithinDay(Run(Opened(free), ops), a)
    ensures (forall n :: 0 <= n <= |ops| ==> Solvent(Run(Opened(free), ops[..n]), a))
       <==> (forall k :: 0 <= k < |ops| ==> !Exceeds(Run(Opened(free), ops[..k]), ops[k], a))
  {
    DailyLimitHolds(free, ops, a);
    SolventAsLongAs(free, ops, a, |ops|);
    assert forall k :: 0 <= k < |ops| ==> (FitsAt(free, ops, a, k) <==> !Exceeds(Run(Opened(free), ops[..k]), ops[k], a));
  }

  /** The condition can fail: one charge on a new wallet overdraws it. */
  lemma ChargeOverdraws()
    ensures !Solvent(Run(Opened(0), [CreateOp("a", None, "0x", Policy(0, 0, 0)), ChargeOp("a", 100)]), "a")
  {
    var create := CreateOp("a", None, "0x", Policy(0, 0, 0));
    var ops := [create, ChargeOp("a", 100)];
    assert ops[..1] == [create];
    assert [create][..0] == [];
    assert Run(Opened(0), [create]) == Do(Opened(0), create);
  }

  // ---------------------------------------------------------------- the daily total of grants

  /** The days of automatic top-ups never decrease. */
  predicate DaysAdvance(ops: seq<Op>) {
    forall i, j :: 0 <= i < j < |ops| && ops[i].AutoOp? && ops[j].AutoOp? ==> ops[i].today <= ops[j].today
  }

  /** Grants of later days than the wallet's own do not exist; those of its day are what it consumed; and no day
      exceeds the maximum. */
  ghost predicate DailyOk(b: Books, a: string) {
    if a in b.wallets then
      var w := b.wallets[a];
      && (forall d :: GrantedOn(b.grants, a, d) <= Max(0, w.policy.maxPerDay))
      && (w.consumedDay.None? ==> w.consumed == 0 && forall d :: GrantedOn(b.grants, a, d) == 0)
      && (w.consumedDay.Some? ==>
            && GrantedOn(b.grants, a, w.consumedDay.value) == w.consumed
            && forall d :: d > w.consumedDay.value ==> GrantedOn(b.grants, a, d) == 0)
    else forall d :: GrantedOn(b.grants, a, d) == 0
  }

  ghost predicate DayOf(b: Books, a: string, today: int) {
    a in b.wallets && b.wallets[a].consumedDay == Some(today)
  }

  lemma GrantOneKeepsDaily(b: Books, agent: string, today: int, a: string)
    requires DailyOk(b, a) && WithinDay(b, a) && (forall x :: x in b.wallets ==> DayOf(b, x, today))
    ensures DailyOk(GrantOne(b, agent, today), a) && WithinDay(GrantOne(b, agent, today), a)
    ensures forall x :: x in GrantOne(b, agent, today).wallets ==> DayOf(GrantOne(b, agent, today), x, today)
  {
    var z := GrantOne(b, agent, today);
    if agent in b.wallets && GetsGrant(b.wallets[agent]) {
      forall d ensures GrantedOn(z.grants, a, d)
                    == GrantedOn(b.grants, a, d) + (if agent == a && today == d then GrantFor(b.wallets[agent]) else 0)
      {
        GrantedAppend(b.grants, Grant(agent, today, GrantFor(b.wallets[agent])), a, d);
      }
      if agent == a {
        assert GrantedOn(b.grants, a, today) == b.wallets[a].consumed;
      }
    }
  }

  lemma {:induction false} GrantAllKeepsDaily(b: Books, order: seq<string>, today: int, a: string)
    requires DailyOk(b, a) && WithinDay(b, a) && (forall x :: x in b.wallets ==> DayOf(b, x, today))
    ensures var z := GrantAll(b, order, today);
      DailyOk(z, a) && WithinDay(z, a) && forall x :: x in z.wallets ==> DayOf(z, x, today)
  {
    if order != [] {
      GrantAllKeepsDaily(b, order[..|order| - 1], today, a);
      GrantOneKeepsDaily(GrantAll(b, order[..|order| - 1], today), order[|order| - 1], today, a);
    }
  }

  lemma AutoKeepsDaily(b: Books, order: seq<string>, today: int, a: string)
    requires DailyOk(b, a) && WithinDay(b, a)
    requires a in b.wallets && b.wallets[a].consumedDay.Some? ==> b.wallets[a].consumedDay.value <= today
    ensures DailyOk(AutoTopup(b, order, today), a)
    ensures a in AutoTopup(b, order, today).wallets ==> AutoTopup(b, order, today).wallets[a].consumedDay == Some(today)
  {
    var r := ResetDay(b, today);
    assert DailyOk(r, a) && WithinDay(r, a);
    GrantAllKeepsDaily(r, order, today, a);
    GrantAllSame(r, order, today);
  }

  /** While the days of the ticks do not go back, the automatic top-ups of one wallet on one day never sum to more
      than its daily maximum. */
  lemma {:induction false} DailyGrantsAreBounded(free: int, ops: seq<Op>, a: string)
    requires SensibleRun(ops) && DaysAdvance(ops)
    ensures DailyOk(Run(Opened(free), ops), a)
    ensures var b := Run(Opened(free), ops);
      a in b.wallets ==>
        (b.wallets[a].consumedDay.Some? ==> exists i :: 0 <= i < |ops| && ops[i].AutoOp? && ops[i].today == b.wallets[a].consumedDay.value)
    ensures var b := Run(Opened(free), ops);
      a in b.wallets ==> forall d :: GrantedOn(b.grants, a, d) <= b.wallets[a].policy.maxPerDay
  {
    DailyLimitHolds(free, ops, a);
    if ops != [] {
      var n := |ops| - 1;
      var init, op := ops[..n], ops[n];
      assert SensibleRun(init) && DaysAdvance(init);
      DailyGrantsAreBounded(free, init, a);
      DailyLimitHolds(free, init, a);
      var b := Run(Opened(free), init);
      if op.AutoOp? {
        if a in b.wallets && b.wallets[a].consumedDay.Some? {
          var i :| 0 <= i < n && init[i].AutoOp? && init[i].today == b.wallets[a].consumedDay.value;
          assert ops[i] == init[i];
        }
        AutoKeepsDaily(b, op.order, op.today, a);
        assert ops[n].today == op.today;
      } else {
        DayColumnsKept(b, op, a);
        if a in b.wallets && b.wallets[a].consumedDay.Some? {
          var i :| 0 <= i < n && init[i].AutoOp? && init[i].today == b.wallets[a].consumedDay.value;
          assert ops[i] == init[i];
        }
      }
    }
  }

  lemma DayColumnsKept(b: Books, op: Op, a: string)
    requires !op.AutoOp?
    ensures var z := Do(b, op);
      && z.grants == b.grants
      && (a in b.wallets ==>
            && a in z.wallets && z.wallets[a].consumed == b.wallets[a].consumed
            && z.wallets[a].consumedDay == b.wallets[a].consumedDay && z.wallets[a].policy == b.wallets[a].policy)
      && (a in z.wallets && a !in b.wallets ==> z.wallets[a].consumed == 0 && z.wallets[a].consumedDay == None)
  {
  }

  // ---------------------------------------------------------------- conservation

  /** The master's free balance and everything allotted. */
  ghost function Wealth(b: Books): int {
    b.free + SumOver(b.wallets.Keys, a => if a in b.wallets then b.wallets[a].allotted else 0)
  }

  lemma OneAllocationChanges(b: Books, z: Books, agent: string, amount: int)
    requires agent in b.wallets && z.wallets.Keys == b.wallets.Keys
    requires forall a :: a in b.wallets ==>
      z.wallets[a].allotted == b.wallets[a].allotted + (if a == agent then amount else 0)
    requires z.free == b.free - amount
    ensures Wealth(z) == Wealth(b)
  {
    var f := a => if a in b.wallets then b.wallets[a].allotted else 0;
    var g := a => if a in z.wallets then z.wallets[a].allotted else 0;
    SumTakeOut(b.wallets.Keys, f, agent);
    SumTakeOut(b.wallets.Keys, g, agent);
    SumSame(b.wallets.Keys - {agent}, f, g);
  }

  lemma SameAllocations(b: Books, z: Books)
    requires z.free == b.free && b.wallets.Keys <= z.wallets.Keys
    requires forall a :: a in z.wallets ==> z.wallets[a].allotted == if a in b.wallets then b.wallets[a].allotted else 0
    ensures Wealth(z) == Wealth(b)
  {
    var f := a => if a in b.wallets then b.wallets[a].allotted else 0;
    var g := a => if a in z.wallets then z.wallets[a].allotted else 0;
    SumSame(z.wallets.Keys, f, g);
    SumOfMore(b.wallets.Keys, z.wallets.Keys, f);
  }

  lemma {:induction false} SumOfMore(few: set<string>, all: set<string>, f: string -> int)
    requires few <= all && forall a :: a in all && a !in few ==> f(a) == 0
    ensures SumOver(few, f) == SumOver(all, f)
    decreases |all|
  {
    if few != all {
      var a :| a in all && a !in few;
      SumTakeOut(all, f, a);
      SumOfMore(few, all - {a}, f);
    }
  }

  lemma {:induction false} GrantsConserve(b: Books, order: seq<string>, today: int)
    ensures Wealth(GrantAll(b, order, today)) == Wealth(b)
  {
    if order != [] {
      var n := |order| - 1;
      GrantsConserve(b, order[..n], today);
      var mid := GrantAll(b, order[..n], today);
      if order[n] in mid.wallets && GetsGrant(mid.wallets[order[n]]) {
        OneAllocationChanges(mid, GrantOne(mid, order[n], today), order[n], GrantFor(mid.wallets[order[n]]));
      }
    }
  }

  /** Every operation keeps the sum of the free balance and all allocations, except a top-up of an agent without a
      wallet, which loses exactly its amount. */
  lemma WealthChangesOnlyBy(b: Books, op: Op)
    ensures Wealth(Do(b, op)) == Wealth(b) - (if op.TopupOp? && op.agent !in b.wallets then op.amount else 0)
  {
    match op {
      case TopupOp(agent, amount) =>
        if agent in b.wallets {
          OneAllocationChanges(b, Do(b, op), agent, amount);
        } else {
          SameAllocations(b, Do(b, op).(free := b.free));
        }
      case AutoOp(today, order) =>
        SameAllocations(b, ResetDay(b, today));
        GrantsConserve(ResetDay(b, today), order, today);
      case _ => SameAllocations(b, Do(b, op));
    }
  }

  /** Every top-up of the run names an agent that has a wallet by then. */
  ghost predicate TopupsFindWallets(b: Books, ops: seq<Op>) {
    forall i :: 0 <= i < |ops| && ops[i].TopupOp? ==> ops[i].agent in Run(b, ops[..i]).wallets
  }

  /** Money moves but none appears: over any run whose top-ups find their wallets, free plus allotted is what
      the master started with. */
  lemma {:induction false} MoneyIsConserved(free: int, ops: seq<Op>)
    requires TopupsFindWallets(Opened(free), ops)
    ensures Wealth(Run(Opened(free), ops)) == free
  {
    if ops != [] {
      var n := |ops| - 1;
      assert TopupsFindWallets(Opened(free), ops[..n]) by {
        assert forall i :: 0 <= i < n ==> ops[..n][..i] == ops[..i];
      }
      MoneyIsConserved(free, ops[..n]);
      WealthChangesOnlyBy(Run(Opened(free), ops[..n]), ops[n]);
    }
  }

  // ---------------------------------------------------------------- HD indexes

  predicate DistinctIndexes(s: seq<nat>) {
    forall i, j :: 0 <= i < j < |s| ==> s[i] != s[j]
  }

  lemma {:induction false} NextIndexIsFree(indexes: seq<nat>)
    ensures forall i :: 0 <= i < |indexes| ==> indexes[i] < NextIndex(indexes)
  {
    if indexes != [] {
      NextIndexIsFree(indexes[..|indexes| - 1]);
    }
  }

  /** Without an index of the caller's choice, creation never fails for the index. */
  lemma AutomaticIndexIsNeverTaken(b: Books, agent: string, address: string, policy: Policy)
    ensures Create(b, agent, None, address, policy) != Err(IndexTaken)
  {
    NextIndexIsFree(b.indexes);
  }

  ghost predicate IndexesOk(b: Books) {
    && DistinctIndexes(b.indexes)
    && (forall a :: a in b.wallets ==> b.wallets[a].index in b.indexes)
    && (forall a, c :: a in b.wallets && c in b.wallets && b.wallets[a].index == b.wallets[c].index ==> a == c)
  }

  lemma SameIndexes(b: Books, z: Books)
    requires IndexesOk(b) && z.indexes == b.indexes && z.wallets.Keys == b.wallets.Keys
    requires forall a :: a in b.wallets ==> z.wallets[a].index == b.wallets[a].index
    ensures IndexesOk(z)
  {
  }

  lemma CreateKeepsIndexes(b: Books, agent: string, index: Option<nat>, address: string, policy: Policy)
    requires IndexesOk(b) && Create(b, agent, index, address, policy).Ok?
    ensures IndexesOk(Create(b, agent, index, address, policy).value)
    ensures b.indexes <= Create(b, agent, index, address, policy).value.indexes
  {
  }

  lemma OtherOpKeepsIndexes(b: Books, op: Op)
    requires IndexesOk(b) && !op.CreateOp? && !op.AutoOp?
    ensures IndexesOk(Do(b, op)) && b.indexes <= Do(b, op).indexes
  {
    SameIndexes(b, Do(b, op));
  }

  lemma OpKeepsIndexes(b: Books, op: Op)
    requires IndexesOk(b)
    ensures IndexesOk(Do(b, op)) && b.indexes <= Do(b, op).indexes
  {
    match op {
      case CreateOp(agent, index, address, policy) =>
        if Create(b, agent, index, address, policy).Ok? {
          CreateKeepsIndexes(b, agent, index, address, policy);
        }
      case AutoOp(today, order) =>
        GrantAllSame(ResetDay(b, today), order, today);
        SameIndexes(b, Do(b, op));
      case _ =>
        OtherOpKeepsIndexes(b, op);
    }
  }

  /** In every run no HD index is ever occupied twice, whatever indexes callers ask for and whichever wallets are
      switched off in between. */
  lemma {:induction false} IndexNeverReused(free: int, ops: seq<Op>)
    ensures IndexesOk(Run(Opened(free), ops))
  {
    if ops != [] {
      IndexNeverReused(free, ops[..|ops| - 1]);
      OpKeepsIndexes(Run(Opened(free), ops[..|ops| - 1]), ops[|ops| - 1]);
    }
  }

  // ---------------------------------------------------------------- the bank

  class Bank {
    var free: int
    var wallets: map<string, Wallet>
    var ledger: seq<Entry>
    var indexes: seq<nat>
    ghost var charges: seq<Charge>
    ghost var grants: seq<Grant>

    ghost function State(): Books
      reads this
    {
      Books(free, wallets, ledger, indexes, charges, grants)
    }

    constructor (free: int)
      ensures State() == Opened(free)
    {
      this.free, wallets, ledger, indexes, charges, grants := free, map[], [], [], [], [];
    }

    /** The row update and the ledger row are one transaction: `commits` is whether it goes through. */
    method DebitForPurchase(agent: string, amount: int, commits: bool) returns (r: Result<bool, BankError>)
      modifies this
      ensures r.Ok? <==> Debit(old(State()), agent, amount).Ok? && commits
      ensures r.Ok? ==> State() == Debit(old(State()), agent, amount).value
      ensures r.Err? ==> State() == old(State())
      ensures r.Err? ==> r.error == if Debit(old(State()), agent, amount).Err? then Debit(old(State()), agent, amount).error else TransactionFailed
    {
      if amount <= 0 {
        return Err(NotPositive);
      }
      if agent !in wallets || !wallets[agent].active {
        return Err(NoActiveWallet);
      }
      var balance := wallets[agent].allotted - wallets[agent].spent + wallets[agent].earned;
      if balance < amount {
        return Err(Insufficient);
      }
      var updated := wallets[agent := wallets[agent].(spent := wallets[agent].spent + amount)];
      var entries := ledger + [Entry(agent, PurchaseKind, -amount)];
      if !commits {
        return Err(TransactionFailed);
      }
      wallets, ledger := updated, entries;
      r := Ok(true);
    }

    method CreditEarning(agent: string, amount: int, commits: bool) returns (r: Result<bool, BankError>)
      modifies this
      ensures r.Ok? <==> Credit(old(State()), agent, amount).Ok? && commits
      ensures r.Ok? ==> State() == Credit(old(State()), agent, amount).value
      ensures r.Err? ==> State() == old(State())
      ensures r.Err? ==> r.error == if Credit(old(State()), agent, amount).Err? then Credit(old(State()), agent, amount).error else TransactionFailed
    {
      if amount <= 0 {
        return Err(NotPositive);
      }
      if agent !in wallets {
        return Err(NoWallet);
      }
      var updated := wallets[agent := wallets[agent].(earned := wallets[agent].earned + amount)];
      var entries := ledger + [Entry(agent, EarnKind, amount)];
      if !commits {
        return Err(TransactionFailed);
      }
      wallets, ledger := updated, entries;
      r := Ok(true);
    }

    /** Three statements, and then the read that reports a missing wallet. */
    method TopupWallet(agent: string, amount: int) returns (r: Result<Wallet, BankError>)
      modifies this
      ensures State() == Topup(old(State()), agent, amount) && wallets.Keys == old(wallets).Keys
      ensures r == if agent in old(wallets) then Ok(wallets[agent]) else Err(NoWallet)
    {
      free := free - amount;
      if agent in wallets {
        wallets := wallets[agent := wallets[agent].(allotted := wallets[agent].allotted + amount)];
      }
      ledger := ledger + [Entry(agent, TopupKind, amount)];
      r := if agent in wallets then Ok(wallets[agent]) else Err(NoWallet);
    }

    method CreateSubWallet(agent: string, index: Option<nat>, address: string, policy: Policy) returns (r: Result<Wallet, BankError>)
      modifies this
      ensures r.Ok? <==> Create(old(State()), agent, index, address, policy).Ok?
      ensures r.Ok? ==> State() == Create(old(State()), agent, index, address, policy).value && agent in wallets && r.value == wallets[agent]
      ensures r.Err? ==> State() == old(State()) && r.error == Create(old(State()), agent, index, address, policy).error
    {
      var next := NextIndex(indexes);
      var i := if index.Some? then index.value else next;
      if i in indexes {
        return Err(IndexTaken);
      }
      if agent in wallets {
        return Err(AgentTaken);
      }
      if AddressUsed(wallets, address) {
        return Err(AddressTaken);
      }
      wallets := wallets[agent := Wallet(i, address, 0, 0, 0, true, false, policy, 0, None)];
      indexes := indexes + [i];
      r := Ok(wallets[agent]);
    }

    /** The two updates of one automatic top-up. */
    method GiveGrant(agent: string, amount: int, today: int)
      requires agent in wallets && GetsGrant(wallets[agent]) && amount == GrantFor(wallets[agent])
      modifies this
      ensures State() == GrantOne(old(State()), agent, today)
      ensures wallets.Keys == old(wallets).Keys
      ensures forall a :: a in wallets && a != agent ==> wallets[a] == old(wallets)[a]
    {
      free := free - amount;
      wallets := wallets[agent := wallets[agent].(allotted := wallets[agent].allotted + amount,
                                                  consumed := wallets[agent].consumed + amount)];
      grants := grants + [Grant(agent, today, amount)];
    }

    method ResetForDay(today: int)
      modifies this
      ensures State() == ResetDay(old(State()), today)
    {
      wallets := map a | a in wallets ::
        if wallets[a].consumedDay != Some(today)
        then wallets[a].(consumed := 0, consumedDay := Some(today)) else wallets[a];
    }

    /** One candidate, decided on the row as it was read. */
    method ConsiderGrant(agent: string, w: Wallet, today: int)
      requires agent in wallets && wallets[agent] == w
      modifies this
      ensures State() == GrantOne(old(State()), agent, today)
      ensures wallets.Keys == old(wallets).Keys
      ensures forall a :: a in wallets && a != agent ==> wallets[a] == old(wallets)[a]
    {
      var balance := w.allotted - w.spent + w.earned;
      var remaining := w.policy.maxPerDay - w.consumed;
      if w.auto && w.active && balance < w.policy.threshold && remaining > 0 {
        GiveGrant(agent, Min(w.policy.amount, remaining), today);
      }
    }

    /** One tick: reset the rows of another day, read the candidates, then grant one by one from what was read.
        `listing` is the order the table is read in. */
    method AutoTopupTick(today: int, listing: seq<string>)
      requires forall i :: 0 <= i < |listing| ==> listing[i] in wallets
      requires forall i, j :: 0 <= i < j < |listing| ==> listing[i] != listing[j]
      modifies this
      ensures State() == AutoTopup(old(State()), listing, today)
    {
      ResetForDay(today);
      var read := wallets;
      ghost var begun := State();
      for i := 0 to |listing|
        invariant State() == GrantAll(begun, listing[..i], today)
        invariant wallets.Keys == read.Keys
        invariant forall k :: i <= k < |listing| ==> wallets[listing[k]] == read[listing[k]]
      {
        ConsiderGrant(listing[i], read[listing[i]], today);
        assert listing[..i + 1][..i] == listing[..i];
      }
      assert listing[..|listing|] == listing;
    }

    /** The newest entries, up to the limit, and the totals over all of them. */
    method ListLedger(agent: Option<string>, limit: nat) returns (entries: seq<Entry>, topup: int, purchase: int, earned: int)
      ensures entries == Newest(Filtered(ledger, agent), limit)
      ensures topup == Total(ledger, agent, TopupKind) && purchase == -Total(ledger, agent, PurchaseKind)
      ensures earned == Total(ledger, agent, EarnKind)
    {
      entries := [];
      topup, purchase, earned := 0, 0, 0;
      var cap := Max(1, Min(limit, 500));
      for i := 0 to |ledger|
        invariant entries == Filtered(ledger[..i], agent)
        invariant topup == Total(ledger[..i], agent, TopupKind) && purchase == -Total(ledger[..i], agent, PurchaseKind)
        invariant earned == Total(ledger[..i], agent, EarnKind)
      {
        var e := ledger[i];
        assert ledger[..i + 1][..i] == ledger[..i];
        if agent.None? || agent.value == e.agent {
          entries := [e] + entries;
          match e.kind {
            case TopupKind => topup := topup + e.amount;
            case PurchaseKind => purchase := purchase - e.amount;
            case EarnKind => earned := earned + e.amount;
          }
        }
      }
      assert ledger[..|ledger|] == ledger;
      if |entries| > cap {
        entries := entries[..cap];
      }
    }
  }

  /** The entries of an agent, or all, newest first. */
  function Filtered(ledger: seq<Entry>, agent: Option<string>): seq<Entry> {
    if ledger == [] then []
    else
      var e := ledger[|ledger| - 1];
      (if agent.None? || agent.value == e.agent then [e] else []) + Filtered(ledger[..|ledger| - 1], agent)
  }

  /** The limit is clamped to 1..500. */
  function Newest(entries: seq<Entry>, limit: nat): seq<Entry> {
    var cap := Max(1, Min(limit, 500));
    if |entries| > cap then entries[..cap] else entries
  }

  function SumOfKind(entries: seq<Entry>, kind: Kind): int {
    if entries == [] then 0 else (if entries[0].kind == kind then entries[0].amount else 0) + SumOfKind(entries[1..], kind)
  }

  /** When the limit cuts nothing off, the listed entries add up to the totals; a larger limit only extends the
      list and leaves the totals alone. */
  lemma {:induction false} ListedEntriesAddUp(ledger: seq<Entry>, agent: Option<string>, kind: Kind)
    ensures SumOfKind(Filtered(ledger, agent), kind) == Total(ledger, agent, kind)
    ensures forall n: nat, m: nat :: n <= m ==> Newest(Filtered(ledger, agent), n) <= Newest(Filtered(ledger, agent), m)
  {
    if ledger != [] {
      ListedEntriesAddUp(ledger[..|ledger| - 1], agent, kind);
      var rest := Filtered(ledger[..|ledger| - 1], agent);
      var e := ledger[|ledger| - 1];
      assert ([e] + rest)[1..] == rest;
      assert [] + rest == rest;
    }
  }

  /** The totals over all agents are the sums of what the wallets show: earned exactly, and purchases up to the
      charges that skip the ledger. */
  lemma TotalsMatchWallets(free: int, ops: seq<Op>)
    ensures var b := Run(Opened(free), ops);
      Total(b.ledger, None, EarnKind) == SumOver(b.wallets.Keys, a => if a in b.wallets then b.wallets[a].earned else 0)
    ensures var b := Run(Opened(free), ops);
      -Total(b.ledger, None, PurchaseKind)
        == SumOver(b.wallets.Keys, a => if a in b.wallets then b.wallets[a].spent - Charged(b.charges, a) else 0)
  {
    var b := Run(Opened(free), ops);
    EntriesHaveWallets(free, ops);
    forall a ensures LedgerExplains(b, a) {
      LedgerMatchesWallets(free, ops, a);
    }
    var earned := (a: string) => if a in b.wallets then b.wallets[a].earned else 0;
    var bought := (a: string) => if a in b.wallets then b.wallets[a].spent - Charged(b.charges, a) else 0;
    var earnings := (a: string) => Total(b.ledger, Some(a), EarnKind);
    var purchases := (a: string) => Total(b.ledger, Some(a), PurchaseKind);
    SumByAgent(b.ledger, b.wallets.Keys, EarnKind, earnings);
    SumByAgent(b.ledger, b.wallets.Keys, PurchaseKind, purchases);
    forall a | a in b.wallets.Keys ensures earnings(a) == earned(a) && bought(a) == -purchases(a) {
      assert LedgerExplains(b, a);
    }
    SumSame(b.wallets.Keys, earnings, earned);
    SumSame(b.wallets.Keys, earned, a => if a in b.wallets then b.wallets[a].earned else 0);
    SumNegated(b.wallets.Keys, purchases, bought);
    SumSame(b.wallets.Keys, bought, a => if a in b.wallets then b.wallets[a].spent - Charged(b.charges, a) else 0);
  }

  /** Purchases and earnings are recorded only for agents that have a wallet. */
  ghost predicate Booked(b: Books) {
    forall i :: 0 <= i < |b.ledger| && b.ledger[i].kind != TopupKind ==> b.ledger[i].agent in b.wallets
  }

  lemma {:induction false} EntriesHaveWallets(free: int, ops: seq<Op>)
    ensures Booked(Run(Opened(free), ops))
  {
    if ops != [] {
      EntriesHaveWallets(free, ops[..|ops| - 1]);
      OpKeepsBooked(Run(Opened(free), ops[..|ops| - 1]), ops[|ops| - 1]);
    }
  }

  lemma OpKeepsBooked(b: Books, op: Op)
    requires Booked(b)
    ensures Booked(Do(b, op))
  {
    match op {
      case AutoOp(today, order) => GrantAllSame(ResetDay(b, today), order, today);
      case _ =>
    }
  }

  lemma {:induction false} SumNegated(agents: set<string>, f: string -> int, g: string -> int)
    requires forall a :: a in agents ==> g(a) == -f(a)
    ensures SumOver(agents, g) == -SumOver(agents, f)
    decreases |agents|
  {
    if agents != {} {
      var a :| a in agents;
      SumTakeOut(agents, f, a);
      SumTakeOut(agents, g, a);
      SumNegated(agents - {a}, f, g);
    }
  }

  /** A ledger's total is the sum of its totals by agent, over any agents that cover the kind. */
  lemma {:induction false} SumByAgent(ledger: seq<Entry>, agents: set<string>, kind: Kind, totals: string -> int)
    requires forall i :: 0 <= i < |ledger| && ledger[i].kind == kind ==> ledger[i].agent in agents
    requires forall a :: totals(a) == Total(ledger, Some(a), kind)
    ensures Total(ledger, None, kind) == SumOver(agents, totals)
  {
    if ledger == [] {
      SumOfMore({}, agents, totals);
    } else {
      var n := |ledger| - 1;
      var init, e := ledger[..n], ledger[n];
      var before := (a: string) => Total(init, Some(a), kind);
      SumByAgent(init, agents, kind, before);
      if e.kind == kind {
        SumTakeOut(agents, before, e.agent);
        SumTakeOut(agents, totals, e.agent);
        SumSame(agents - {e.agent}, before, totals);
      } else {
        SumSame(agents, before, totals);
      }
    }
  }
}
