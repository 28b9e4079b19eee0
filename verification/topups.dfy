/** What one tick of the automatic top-up does to each wallet, stated on the books before and after it. */
module Topups {
  import opened Prelude
  import opened Wallets

  /** What the wallet has consumed of today's maximum. */
  function UsedToday(w: Wallet, today: int): int {
    if w.consumedDay == Some(today) then w.consumed else 0
  }

  /** The wallet is on automatic, short of money, and the day leaves something. */
  predicate Wants(w: Wallet, today: int) {
    && w.active && w.auto
    && w.allotted + w.earned - w.spent < w.policy.threshold
    && UsedToday(w, today) < w.policy.maxPerDay
  }

  /** The policy's amount, or what the day leaves if that is less. */
  function Gets(w: Wallet, today: int): int {
    if w.policy.amount + UsedToday(w, today) <= w.policy.maxPerDay then w.policy.amount
    else w.policy.maxPerDay - UsedToday(w, today)
  }

  /** The row after a tick that lists it or not. */
  function TickedRow(w: Wallet, today: int, listed: bool): Wallet {
    var g := if listed && Wants(w, today) then Gets(w, today) else 0;
    w.(allotted := w.allotted + g, consumed := UsedToday(w, today) + g, consumedDay := Some(today))
  }

  /** The grants a tick records, in the order of its listing. */
  function TickGrants(b: Books, listing: seq<string>, today: int): seq<Grant> {
    if listing == [] then []
    else
      var a := listing[|listing| - 1];
      TickGrants(b, listing[..|listing| - 1], today)
      + if a in b.wallets && Wants(b.wallets[a], today) then [Grant(a, today, Gets(b.wallets[a], today))] else []
  }

  function SumOfGrants(grants: seq<Grant>): int {
    if grants == [] then 0 else SumOfGrants(grants[..|grants| - 1]) + grants[|grants| - 1].amount
  }

  predicate Once(listing: seq<string>) {
    forall i, j :: 0 <= i < j < |listing| ==> listing[i] != listing[j]
  }

  lemma ResetRow(b: Books, today: int, a: string)
    requires a in b.wallets
    ensures var w := ResetDay(b, today).wallets[a];
      && w == TickedRow(b.wallets[a], today, false)
      && (GetsGrant(w) <==> Wants(b.wallets[a], today))
      && (GetsGrant(w) ==> GrantFor(w) == Gets(b.wallets[a], today))
  {
  }

  /** After the tick has considered the agents of a listing, each row, the grants and the master's balance. */
  ghost predicate TickedTo(b: Books, z: Books, listing: seq<string>, today: int) {
    && z.wallets.Keys == b.wallets.Keys
    && (forall a :: a in b.wallets ==> z.wallets[a] == TickedRow(b.wallets[a], today, a in listing))
    && z.grants == b.grants + TickGrants(b, listing, today)
    && z.free == b.free - SumOfGrants(TickGrants(b, listing, today))
    && z.ledger == b.ledger && z.indexes == b.indexes && z.charges == b.charges
  }

  lemma GrantStep(b: Books, z: Books, listing: seq<string>, today: int, a: string)
    requires TickedTo(b, z, listing, today) && a !in listing
    ensures TickedTo(b, GrantOne(z, a, today), listing + [a], today)
  {
    var more := listing + [a];
    assert more[..|listing|] == listing;
    assert forall c :: c in more <==> c in listing || c == a;
    var before := TickGrants(b, listing, today);
    if a in b.wallets {
      ResetRow(b, today, a);
      var g := Grant(a, today, Gets(b.wallets[a], today));
      assert (before + [g])[..|before|] == before;
      assert b.grants + (before + [g]) == b.grants + before + [g];
    }
    assert before + [] == before;
  }

  lemma {:induction false} GrantsStep(b: Books, listing: seq<string>, today: int)
    requires Once(listing)
    ensures TickedTo(b, GrantAll(ResetDay(b, today), listing, today), listing, today)
  {
    if listing == [] {
      assert b.grants + [] == b.grants;
    } else {
      var n := |listing| - 1;
      GrantsStep(b, listing[..n], today);
      assert listing[n] !in listing[..n];
      assert listing[..n] + [listing[n]] == listing;
      GrantStep(b, GrantAll(ResetDay(b, today), listing[..n], today), listing[..n], today, listing[n]);
    }
  }

  /** One tick over distinct agents: a listed wallet that wants money gets the policy's amount, or what the day leaves
      if that is less, on its allocation and its consumption of the day alike, and one grant of that amount is
      recorded, in the order of the listing; every other wallet keeps its allocation. The master's free balance
      pays for the grants, and the ledger does not change. */
  lemma TickGivesEach(b: Books, listing: seq<string>, today: int, a: string)
    requires Once(listing) && a in b.wallets
    ensures var z := AutoTopup(b, listing, today); var w := b.wallets[a]; var left := w.policy.maxPerDay - UsedToday(w, today);
      var wants := a in listing && w.active && w.auto && w.allotted + w.earned - w.spent < w.policy.threshold && left > 0;
      && a in z.wallets
      && z.wallets[a].allotted == w.allotted + (if wants then Min(w.policy.amount, left) else 0)
      && (w.policy.amount > 0 ==> (z.wallets[a].allotted > w.allotted <==> wants))
      && (wants ==> Grant(a, today, Min(w.policy.amount, left)) in TickGrants(b, listing, today))
      && z.wallets[a].consumed - UsedToday(w, today) == z.wallets[a].allotted - w.allotted
      && z.wallets[a].consumedDay == Some(today)
      && z.wallets[a].(allotted := w.allotted, consumed := w.consumed, consumedDay := w.consumedDay) == w
    ensures var z := AutoTopup(b, listing, today);
      && z.grants == b.grants + TickGrants(b, listing, today)
      && z.free == b.free - SumOfGrants(TickGrants(b, listing, today)) && z.ledger == b.ledger
  {
    GrantsStep(b, listing, today);
    if a in listing && Wants(b.wallets[a], today) {
      GrantIsRecorded(b, listing, today, a);
    }
  }

  lemma {:induction false} GrantIsRecorded(b: Books, listing: seq<string>, today: int, a: string)
    requires a in listing && a in b.wallets && Wants(b.wallets[a], today)
    ensures Grant(a, today, Gets(b.wallets[a], today)) in TickGrants(b, listing, today)
  {
    var n := |listing| - 1;
    if listing[n] != a {
      assert a in listing[..n];
      GrantIsRecorded(b, listing[..n], today, a);
    }
  }

  // ---------------------------------------------------------------- grants over runs

  /** No grant is larger than its wallet's amount. */
  ghost predicate GrantsFit(b: Books) {
    forall i :: 0 <= i < |b.grants| ==> GrantFits(b, b.grants[i])
  }

  predicate GrantFits(b: Books, g: Grant) {
    g.agent in b.wallets && g.amount <= b.wallets[g.agent].policy.amount
  }

  lemma SamePoliciesKeepFit(b: Books, z: Books)
    requires GrantsFit(b) && z.grants == b.grants && b.wallets.Keys <= z.wallets.Keys
    requires forall a :: a in b.wallets ==> z.wallets[a].policy == b.wallets[a].policy
    ensures GrantsFit(z)
  {
    forall i | 0 <= i < |z.grants| ensures GrantFits(z, z.grants[i]) {
      assert GrantFits(b, b.grants[i]);
    }
  }

  lemma GrantOneFits(b: Books, a: string, today: int)
    requires GrantsFit(b)
    ensures GrantsFit(GrantOne(b, a, today))
  {
    var z := GrantOne(b, a, today);
    forall i | 0 <= i < |z.grants| ensures GrantFits(z, z.grants[i]) {
      if i < |b.grants| {
        assert GrantFits(b, b.grants[i]);
      }
    }
  }

  lemma {:induction false} GrantAllFits(b: Books, order: seq<string>, today: int)
    requires GrantsFit(b)
    ensures GrantsFit(GrantAll(b, order, today))
  {
    if order != [] {
      GrantAllFits(b, order[..|order| - 1], today);
      GrantOneFits(GrantAll(b, order[..|order| - 1], today), order[|order| - 1], today);
    }
  }

  lemma OpKeepsGrantsFit(b: Books, op: Op)
    requires GrantsFit(b)
    ensures GrantsFit(Do(b, op))
  {
    if op.AutoOp? {
      SamePoliciesKeepFit(b, ResetDay(b, op.today));
      GrantAllFits(ResetDay(b, op.today), op.order, op.today);
    } else {
      SamePoliciesKeepFit(b, Do(b, op));
    }
  }

  /** In every run no grant is larger than the amount of its wallet's policy. */
  lemma {:induction false} NoGrantExceedsAmount(free: int, ops: seq<Op>)
    ensures GrantsFit(Run(Opened(free), ops))
    ensures var b := Run(Opened(free), ops);
      forall i :: 0 <= i < |b.grants| ==>
        b.grants[i].agent in b.wallets && b.grants[i].amount <= b.wallets[b.grants[i].agent].policy.amount
  {
    if ops != [] {
      NoGrantExceedsAmount(free, ops[..|ops| - 1]);
      OpKeepsGrantsFit(Run(Opened(free), ops[..|ops| - 1]), ops[|ops| - 1]);
    }
    var b := Run(Opened(free), ops);
    assert forall i :: 0 <= i < |b.grants| ==> GrantFits(b, b.grants[i]);
  }
}
