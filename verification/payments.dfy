/** When the operations on wallets go through, which error they report otherwise, and what they write, stated on
    the rows and the ledger before and after. */
module Payments {
  import opened Prelude
  import opened Wallets

  /** The books with one row and one ledger entry more. */
  function Written(b: Books, agent: string, w: Wallet, e: Entry): Books {
    b.(wallets := b.wallets[agent := w], ledger := b.ledger + [e])
  }

  /** A purchase goes through exactly when its amount is positive, the wallet exists and is active, and the balance
      covers it to the last unit; it is then spent and recorded as a negative entry. A refused one is refused for
      the first of these reasons. */
  lemma PurchaseWhen(b: Books, agent: string, amount: int)
    ensures Debit(b, agent, amount).Ok? <==>
      && amount >= 1 && agent in b.wallets && b.wallets[agent].active
      && b.wallets[agent].spent + amount <= b.wallets[agent].allotted + b.wallets[agent].earned
    ensures Debit(b, agent, amount).Ok? ==>
      Debit(b, agent, amount).value == Written(b, agent, b.wallets[agent].(spent := b.wallets[agent].spent + amount),
                                               Entry(agent, PurchaseKind, 0 - amount))
    ensures Debit(b, agent, amount).Err? ==>
      Debit(b, agent, amount).error
        == (if amount < 1 then NotPositive
            else if agent in b.wallets && b.wallets[agent].active then Insufficient else NoActiveWallet)
  {
  }

  /** An earning goes through exactly when its amount is positive and the wallet exists, active or not. */
  lemma EarningWhen(b: Books, agent: string, amount: int)
    ensures Credit(b, agent, amount).Ok? <==> amount >= 1 && agent in b.wallets
    ensures Credit(b, agent, amount).Ok? ==>
      Credit(b, agent, amount).value == Written(b, agent, b.wallets[agent].(earned := b.wallets[agent].earned + amount),
                                                Entry(agent, EarnKind, amount))
    ensures Credit(b, agent, amount).Err? ==> Credit(b, agent, amount).error == if amount < 1 then NotPositive else NoWallet
  {
  }

  /** What a top-up and the charge of a sent message write, and that neither looks at the balance. */
  lemma UncheckedWrites(b: Books, agent: string, amount: int)
    requires agent in b.wallets
    ensures Topup(b, agent, amount)
      == Written(b, agent, b.wallets[agent].(allotted := b.wallets[agent].allotted + amount), Entry(agent, TopupKind, amount))
           .(free := b.free - amount)
    ensures ChargeSend(b, agent, amount)
      == b.(wallets := b.wallets[agent := b.wallets[agent].(spent := b.wallets[agent].spent + amount)],
            charges := b.charges + [Charge(agent, amount)])
  {
  }

  /** The automatic index is 0 for the first wallet and otherwise one above the largest index ever occupied. */
  lemma {:induction false} AutomaticIndexIs(indexes: seq<nat>)
    ensures indexes == [] ==> NextIndex(indexes) == 0
    ensures indexes != [] ==> NextIndex(indexes) >= 1 && NextIndex(indexes) - 1 in indexes
    ensures forall i :: i in indexes ==> i <= NextIndex(indexes) - 1
  {
    if indexes != [] {
      var n := |indexes| - 1;
      AutomaticIndexIs(indexes[..n]);
      assert forall i :: i in indexes <==> i in indexes[..n] || i == indexes[n];
    }
  }

  /** A wallet is created exactly when its index was never occupied, its agent has none and no wallet has its address;
      it starts empty, active and not on automatic. */
  lemma CreationWhen(b: Books, agent: string, index: Option<nat>, address: string, policy: Policy)
    ensures var r := Create(b, agent, index, address, policy);
      var i := if index.Some? then index.value else NextIndex(b.indexes);
      && (r.Ok? <==> i !in b.indexes && agent !in b.wallets && forall a :: a in b.wallets ==> b.wallets[a].address != address)
      && (r.Ok? ==> r.value == b.(wallets := b.wallets[agent := Wallet(i, address, 0, 0, 0, true, false, policy, 0, None)],
                                  indexes := b.indexes + [i]))
      && (r.Err? ==> r.error == if i in b.indexes then IndexTaken else if agent in b.wallets then AgentTaken else AddressTaken)
  {
  }

  /** An operator's switches reach the wallet and change nothing else; without a wallet they do nothing. */
  lemma ConfigureWrites(b: Books, agent: string, active: bool, auto: bool)
    ensures agent !in b.wallets ==> Configure(b, agent, active, auto) == b
    ensures agent in b.wallets ==>
      && Configure(b, agent, active, auto).wallets[agent].active == active && Configure(b, agent, active, auto).wallets[agent].auto == auto
      && Configure(b, agent, active, auto)
           == b.(wallets := b.wallets[agent := b.wallets[agent].(auto := auto).(active := active)])
  {
  }

  /** The ledger is listed newest first, and only an agent's own entries when one is named. */
  lemma NewestFirst(ledger: seq<Entry>, e: Entry, agent: Option<string>)
    ensures Filtered([], agent) == []
    ensures Filtered(ledger + [e], agent)
      == (if agent == None || agent == Some(e.agent) then [e] + Filtered(ledger, agent) else Filtered(ledger, agent))
  {
    assert (ledger + [e])[..|ledger|] == ledger;
    assert [] + Filtered(ledger, agent) == Filtered(ledger, agent);
  }

  /** A list is cut to the limit, which is at least 1 and at most 500. */
  lemma ListLimitIs(entries: seq<Entry>, limit: nat)
    ensures Newest(entries, limit) <= entries
    ensures |Newest(entries, limit)| == |entries| <==>
      |entries| <= 1 || (|entries| <= 500 && |entries| <= limit)
    ensures |Newest(entries, limit)| < |entries| ==>
      |Newest(entries, limit)| == if limit == 0 then 1 else if limit >= 500 then 500 else limit
  {
  }
}
