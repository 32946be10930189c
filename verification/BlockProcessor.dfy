/** Serial processing of a block's transactions (core/state_processor.go) and the state-sync
    receipt that may follow them (core/blockchain.go). */
module BlockProcessor {
  import opened Wrappers
  import opened Balances
  import opened GasCosts
  import opened StateTransition

  datatype Receipt = Receipt(success: bool, gasUsed: nat, cumulative: nat)

  /** A transaction of a block body, with the EVM's behaviour on it and its sender's account. */
  datatype Item = StateSync | Ordinary(tx: Transaction, evm: Evm, sender: Sender)

  ghost predicate FairItem(i: Item) {
    i.Ordinary? ==> Fair(i.evm) && Sized(TransactionToMessage(i.tx, None)) && i.tx.gas <= MAX64
  }

  function BaseFeeOf(rules: Rules, ctx: Context): (f: Option<nat>) { if rules.london then Some(ctx.baseFee) else None }

  function MessageOf(rules: Rules, ctx: Context, tx: Transaction): (m: Message)
    ensures AskedBy(tx, BaseFeeOf(rules, ctx), m) && Priced(m, BaseFeeOf(rules, ctx))
  {
    TransactionToMessage(tx, BaseFeeOf(rules, ctx))
  }

  /** On ledger `l`, with `available` gas left in the block, the transaction is accepted, uses
      `used` gas and leaves ledger `l'`. */
  ghost predicate Applies(rules: Rules, ctx: Context, item: Item, l: Ledger, available: int, used: nat, failed: bool,
                          l': Ledger)
    requires item.Ordinary?
  {
    var m := MessageOf(rules, ctx, item.tx);
    && |m.data| <= MAX64 && 0 <= available && Acceptable(rules, ctx, m, item.sender, l, available)
    && IntrinsicOf(rules, m) <= m.gasLimit
    && Yields(rules, ctx, m, item.evm(AfterPurchase(rules, ctx, m, l), m.gasLimit - IntrinsicOf(rules, m)), used,
      failed, l')
  }

  ghost predicate Accepts(rules: Rules, ctx: Context, item: Item, l: Ledger, available: int)
    requires item.Ordinary?
  {
    var m := MessageOf(rules, ctx, item.tx);
    |m.data| <= MAX64 && 0 <= available && Acceptable(rules, ctx, m, item.sender, l, available)
  }

  /** What the EVM returned settles to the given gas, success and ledger. */
  ghost predicate Yields(rules: Rules, ctx: Context, m: Message, out: EvmResult, used: nat, failed: bool, l': Ledger)
    requires |m.data| <= MAX64
  {
    && out.gasLeft <= m.gasLimit && used <= m.gasLimit && failed == out.failed
    && LeastUse(used, m.gasLimit - out.gasLeft, out.refund, if rules.prague then FloorOf(m) else 0, rules.london)
    && l' == Credit(rules, ctx, m, used, Add(out.ledger, m.from, Cost(m.gasLimit - used, m.gasPrice)))
  }

  /** Applies one transaction: fees are reported by the transition and credited afterwards. */
  method ApplyTransaction(rules: Rules, ctx: Context, item: Item, pool: GasPool, ledger: Ledger)
    returns (r: Result, ledger': Ledger)
    requires item.Ordinary? && FairItem(item) && !rules.noBaseFee && pool.gas <= MAX64 && Total(ledger) < U256
    modifies pool
    ensures r.Rejected? ==> ledger' == ledger && !Accepts(rules, ctx, item, ledger, old(pool.gas))
    ensures r.Applied? ==> Applies(rules, ctx, item, ledger, old(pool.gas), r.used, r.failed, ledger')
    ensures r.Applied? ==>
              var m := MessageOf(rules, ctx, item.tx);
              && 0 < r.used <= old(pool.gas) && pool.gas == old(pool.gas) - r.used
              && r.tipped >= 0
              && Total(ledger') + BlobFee(rules, ctx, m) + LostBaseFee(rules, ctx, r.used) == Total(ledger)
    // At the price the transaction offers, its sender pays the whole limit up front and gets the
    // unused part back, the burn address receives the base fee and the coinbase the tip.
    ensures r.Applied? ==> Pays(rules, ctx, item, ledger, r.used, ledger')
  {
    var m := MessageOf(rules, ctx, item.tx);
    var settled;
    r, settled := RunMessage(rules, ctx, item, pool, ledger);
    if r.Rejected? {
      return r, ledger;
    }
    CreditTotal(rules, ctx, m, r.used, settled);
    ledger' := CreditFees(rules, ctx, m, r, settled);
    DistributedPaysOut(rules, ctx, m, EvmLedger(rules, ctx, item, ledger), r.used, settled, ledger');
  }

  /** The ledger that the EVM returns for the transaction, once its gas is bought. */
  ghost function EvmLedger(rules: Rules, ctx: Context, item: Item, l: Ledger): (r: Ledger)
    requires item.Ordinary? && |item.tx.data| <= MAX64
    requires IntrinsicOf(rules, MessageOf(rules, ctx, item.tx)) <= item.tx.gas
  {
    var m := MessageOf(rules, ctx, item.tx);
    item.evm(AfterPurchase(rules, ctx, m, l), m.gasLimit - IntrinsicOf(rules, m)).ledger
  }

  /** Who pays and who receives what, account by account, at the price the transaction offers. */
  ghost predicate Pays(rules: Rules, ctx: Context, item: Item, l: Ledger, used: nat, l': Ledger)
    requires item.Ordinary?
  {
    var m := MessageOf(rules, ctx, item.tx);
    && |item.tx.data| <= MAX64 && IntrinsicOf(rules, m) <= item.tx.gas
    && AskedBy(item.tx, BaseFeeOf(rules, ctx), m)
    && Raised(AfterPurchase(rules, ctx, m, l), l, item.tx.from, Prepaid(rules, ctx, m))
    && PaidOut(rules, ctx, m, EvmLedger(rules, ctx, item, l), used, l')
  }

  /** Runs the transition of a block transaction without crediting fees. Its fees are covered. */
  method RunMessage(rules: Rules, ctx: Context, item: Item, pool: GasPool, ledger: Ledger)
    returns (r: Result, settled: Ledger)
    requires item.Ordinary? && FairItem(item) && !rules.noBaseFee && pool.gas <= MAX64 && Total(ledger) < U256
    modifies pool
    ensures r.Applied? <==> Accepts(rules, ctx, item, ledger, old(pool.gas))
    ensures r.Applied? ==>
              var m := MessageOf(rules, ctx, item.tx);
              && IntrinsicOf(rules, m) <= m.gasLimit
              && Outcome(rules, m, item.evm(AfterPurchase(rules, ctx, m, ledger), m.gasLimit - IntrinsicOf(rules, m)),
                         r, settled)
    ensures r.Applied? ==>
              var m := MessageOf(rules, ctx, item.tx);
              && 0 < r.used <= old(pool.gas) && pool.gas == old(pool.gas) - r.used && Covered(rules, ctx, m)
              && r.tipped == Tip(rules, ctx, m, r.used) >= 0 && r.burnt == Burnt(rules, ctx, r.used)
              && BaseShare(rules, ctx, r.used) + r.tipped == r.used * m.gasPrice
              && Total(settled) + BlobFee(rules, ctx, m) + r.used * m.gasPrice == Total(ledger)
    ensures r.Applied? ==>
              var m := MessageOf(rules, ctx, item.tx);
              && AskedBy(item.tx, BaseFeeOf(rules, ctx), m)
              && Raised(AfterPurchase(rules, ctx, m, ledger), ledger, item.tx.from, Prepaid(rules, ctx, m))
              && IntrinsicOf(rules, m) <= m.gasLimit
              && Distributed(rules, ctx, m, EvmLedger(rules, ctx, item, ledger), r.used, settled, true, settled)
  {
    var m := MessageOf(rules, ctx, item.tx);
    var st := new Transition(rules, ctx, m, pool, ledger);
    ghost var before;
    r, before := st.Execute(item.evm, item.sender, true);
    settled := st.ledger;
    if r.Applied? {
      AcceptedIsCovered(rules, ctx, m, item.sender);
      FeesAddUp(rules, ctx, m, r.used);
    }
  }

  /** Credits the fees that the transition reported. */
  method CreditFees(rules: Rules, ctx: Context, m: Message, r: Result, ledger: Ledger) returns (ledger': Ledger)
    requires r.Applied? && r.tipped == Tip(rules, ctx, m, r.used) && r.burnt == Burnt(rules, ctx, r.used)
    ensures ledger' == Credit(rules, ctx, m, r.used, ledger)
    ensures Covered(rules, ctx, m) && Total(ledger) + r.used * m.gasPrice < U256 ==>
              FeesReceived(rules, ctx, m.gasPrice, r.used, ledger, ledger')
  {
    ledger' := ledger;
    if rules.london && r.burnt.Some? {
      ledger' := Add(ledger', rules.bor.value, r.burnt.value);
    }
    ledger' := Add(ledger', ctx.coinbase, Abs(r.tipped));
    if Covered(rules, ctx, m) && Total(ledger) + r.used * m.gasPrice < U256 {
      CreditAccounts(rules, ctx, m, r.used, ledger);
    }
  }

  function Ordinaries(items: seq<Item>): (r: seq<Item>)
    ensures forall i :: 0 <= i < |r| ==> r[i].Ordinary?
  {
    if items == [] then []
    else Ordinaries(items[..|items| - 1]) + (if items[|items| - 1].Ordinary? then [items[|items| - 1]] else [])
  }

  function GasSum(receipts: seq<Receipt>): (n: nat) {
    if receipts == [] then 0 else GasSum(receipts[..|receipts| - 1]) + receipts[|receipts| - 1].gasUsed
  }

  /** Value that leaves the supply in a block: blob fees, and base fees nobody receives. */
  function SupplyLoss(rules: Rules, ctx: Context, items: seq<Item>, receipts: seq<Receipt>): (n: nat)
    requires |items| == |receipts| && forall i :: 0 <= i < |items| ==> items[i].Ordinary?
  {
    if items == [] then 0
    else
      var k := |items| - 1;
      SupplyLoss(rules, ctx, items[..k], receipts[..k])
      + BlobFee(rules, ctx, MessageOf(rules, ctx, items[k].tx)) + LostBaseFee(rules, ctx, receipts[k].gasUsed)
  }

  /** Cumulative gas is positive and strictly increasing: each receipt adds its own used gas. */
  ghost predicate Ascending(receipts: seq<Receipt>) {
    forall i: nat {:trigger StepsUp(receipts, i)} :: i < |receipts| ==> StepsUp(receipts, i)
  }

  predicate StepsUp(receipts: seq<Receipt>, i: nat)
    requires i < |receipts|
  {
    0 < receipts[i].gasUsed && receipts[i].cumulative == receipts[i].gasUsed + LastCumulative(receipts[..i])
  }

  function LastCumulative(receipts: seq<Receipt>): (n: nat) {
    if receipts == [] then 0 else receipts[|receipts| - 1].cumulative
  }

  /** One more receipt keeps the totals in step. */
  lemma AppendReceipt(rules: Rules, ctx: Context, items: seq<Item>, item: Item, receipts: seq<Receipt>, x: Receipt)
    requires |items| == |receipts| && (forall i :: 0 <= i < |items| ==> items[i].Ordinary?) && item.Ordinary?
    requires Ascending(receipts) && 0 < x.gasUsed && x.cumulative == LastCumulative(receipts) + x.gasUsed
    ensures Ascending(receipts + [x]) && LastCumulative(receipts + [x]) == x.cumulative
    ensures GasSum(receipts + [x]) == GasSum(receipts) + x.gasUsed
    ensures SupplyLoss(rules, ctx, items + [item], receipts + [x]) ==
            SupplyLoss(rules, ctx, items, receipts)
            + BlobFee(rules, ctx, MessageOf(rules, ctx, item.tx)) + LostBaseFee(rules, ctx, x.gasUsed)
  {
    var all := receipts + [x];
    assert all[..|receipts|] == receipts && (items + [item])[..|items|] == items;
    forall i: nat | i < |all|
      ensures StepsUp(all, i)
    {
      if i < |receipts| {
        assert StepsUp(receipts, i);
        assert all[..i] == receipts[..i];
      }
    }
  }

  /** Whether a transaction, on a ledger and with some gas left in the block, gives a receipt and
      a new ledger. */
  type Step = (Item, Ledger, int, Receipt, Ledger) -> bool

  ghost function StepOf(rules: Rules, ctx: Context): (step: Step) {
    (item: Item, l: Ledger, available: int, x: Receipt, l': Ledger) =>
      item.Ordinary? && Applies(rules, ctx, item, l, available, x.gasUsed, !x.success, l')
  }

  /** The transactions, one after another, lead from ledger `l0` to `l` with these receipts. */
  ghost predicate Runs(step: Step, gasLimit: nat, items: seq<Item>, receipts: seq<Receipt>, l0: Ledger, l: Ledger)
    requires |items| == |receipts|
    decreases |items|
  {
    if items == [] then l == l0
    else
      var k := |items| - 1;
      exists mid ::
        && Runs(step, gasLimit, items[..k], receipts[..k], l0, mid)
        && step(items[k], mid, gasLimit - GasSum(receipts[..k]), receipts[k], l)
  }

  lemma RunsOn(step: Step, gasLimit: nat, items: seq<Item>, item: Item, receipts: seq<Receipt>, x: Receipt,
               l0: Ledger, l: Ledger, l': Ledger)
    requires |items| == |receipts| && Runs(step, gasLimit, items, receipts, l0, l)
    requires step(item, l, gasLimit - GasSum(receipts), x, l')
    ensures Runs(step, gasLimit, items + [item], receipts + [x], l0, l')
  {
    var items', receipts' := items + [item], receipts + [x];
    assert items'[..|items|] == items && receipts'[..|items|] == receipts;
    assert Runs(step, gasLimit, items'[..|items|], receipts'[..|items|], l0, l);
  }

  /** The transactions applied so far: their receipts add up to the used gas, and value is
      conserved up to the fees that leave the supply. */
  ghost predicate Progress(rules: Rules, ctx: Context, gasLimit: nat, applied: seq<Item>, receipts: seq<Receipt>,
                           usedGas: nat,
                           l0: Ledger, l: Ledger) {
    && |applied| == |receipts| && (forall i :: 0 <= i < |applied| ==> applied[i].Ordinary?)
    && Runs(StepOf(rules, ctx), gasLimit, applied, receipts, l0, l)
    && Ascending(receipts) && usedGas == GasSum(receipts) == LastCumulative(receipts)
    && Total(l) + SupplyLoss(rules, ctx, applied, receipts) == Total(l0)
  }

  lemma ProgressOn(rules: Rules, ctx: Context, gasLimit: nat, applied: seq<Item>, item: Item, receipts: seq<Receipt>,
                   x: Receipt,
                   usedGas: nat, l0: Ledger, l: Ledger, l': Ledger)
    requires Progress(rules, ctx, gasLimit, applied, receipts, usedGas, l0, l) && item.Ordinary?
    requires StepOf(rules, ctx)(item, l, gasLimit - usedGas, x, l')
    requires 0 < x.gasUsed && x.cumulative == usedGas + x.gasUsed
    requires Total(l') + BlobFee(rules, ctx, MessageOf(rules, ctx, item.tx)) + LostBaseFee(rules, ctx,
             x.gasUsed) == Total(l)
    ensures Progress(rules, ctx, gasLimit, applied + [item], receipts + [x], x.cumulative, l0, l')
  {
    AppendReceipt(rules, ctx, applied, item, receipts, x);
    RunsOn(StepOf(rules, ctx), gasLimit, applied, item, receipts, x, l0, l, l');
  }

  lemma OrdinariesOn(items: seq<Item>, i: nat)
    requires i < |items|
    ensures Ordinaries(items[..i + 1]) == Ordinaries(items[..i]) + (if items[i].Ordinary? then [items[i]] else [])
  {
    assert items[..i + 1][..i] == items[..i];
  }

  /** Applies the next transaction and appends its receipt. */
  method ProcessNext(rules: Rules, ctx: Context, gasLimit: nat, item: Item, receipts: seq<Receipt>, usedGas: nat,
                     pool: GasPool, ledger: Ledger, ghost applied: seq<Item>, ghost ledger0: Ledger)
    returns (ok: bool, receipts': seq<Receipt>, used': nat, ledger': Ledger)
    requires item.Ordinary? && FairItem(item) && !rules.noBaseFee && Total(ledger) < U256
    requires pool.gas + usedGas == gasLimit <= MAX64
    requires Progress(rules, ctx, gasLimit, applied, receipts, usedGas, ledger0, ledger)
    modifies pool
    ensures !ok ==> !Accepts(rules, ctx, item, ledger, gasLimit - usedGas)
    ensures ok ==> pool.gas + used' == gasLimit && Total(ledger') <= Total(ledger)
    ensures ok ==> Progress(rules, ctx, gasLimit, applied + [item], receipts', used', ledger0, ledger')
  {
    var r;
    r, ledger' := ApplyTransaction(rules, ctx, item, pool, ledger);
    ok, receipts', used' := r.Applied?, receipts, usedGas;
    if ok {
      used' := usedGas + r.used;
      var receipt := Receipt(!r.failed, r.used, used');
      ProgressOn(rules, ctx, gasLimit, applied, item, receipts, receipt, usedGas, ledger0, ledger, ledger');
      receipts' := receipts + [receipt];
    }
  }

  /** Runs the transactions in order, up to the first that is not accepted. State-sync
      transactions are skipped. On success the pool and the used gas add up to the block's gas
      limit. */
  method Process(rules: Rules, ctx: Context, gasLimit: nat, items: seq<Item>, ledger0: Ledger)
    returns (ok: bool, receipts: seq<Receipt>, usedGas: nat, left: nat, ledger: Ledger, ghost done: nat)
    requires !rules.noBaseFee && gasLimit <= MAX64 && Total(ledger0) < U256
    requires forall i :: 0 <= i < |items| ==> FairItem(items[i])
    ensures done <= |items| && Progress(rules, ctx, gasLimit, Ordinaries(items[..done]), receipts, usedGas, ledger0,
            ledger)
    ensures ok ==> Progress(rules, ctx, gasLimit, Ordinaries(items), receipts, usedGas, ledger0, ledger)
    ensures ok ==> left + usedGas == gasLimit
    ensures !ok ==> done < |items| && items[done].Ordinary?
    ensures !ok ==> !Accepts(rules, ctx, items[done], ledger, gasLimit - usedGas)
  {
    ok, receipts, usedGas, ledger := true, [], 0, ledger0;
    var pool := new GasPool(0);
    pool.AddGas(gasLimit);
    for i := 0 to |items|
      invariant pool.gas + usedGas == gasLimit && Total(ledger) < U256
      invariant Progress(rules, ctx, gasLimit, Ordinaries(items[..i]), receipts, usedGas, ledger0, ledger)
    {
      OrdinariesOn(items, i);
      if items[i].StateSync? {
        assert Ordinaries(items[..i]) + [] == Ordinaries(items[..i]);
        continue;
      }
      ghost var applied := Ordinaries(items[..i]);
      var next, receipts', used', ledger' := ProcessNext(rules, ctx, gasLimit, items[i], receipts, usedGas, pool,
                                                         ledger,
                                                         applied, ledger0);
      if !next {
        return false, receipts, usedGas, pool.gas, ledger, i;
      }
      receipts, usedGas, ledger := receipts', used', ledger';
    }
    assert items[..|items|] == items;
    left, done := pool.gas, |items|;
  }

  // ---------- State-sync receipts ----------

  /** A state-sync receipt is last and has no gas of its own, so a received list that ends with
      one ends in a zero or a repeated cumulative value. */
  predicate IsStateSyncReceiptPresent(decoded: seq<Receipt>) {
    && decoded != []
    && (decoded[|decoded| - 1].cumulative == 0
        || (|decoded| >= 2 && decoded[|decoded| - 1].cumulative == decoded[|decoded| - 2].cumulative))
  }

  /** The receipt of a block's state-sync transaction as a peer may send it. */
  predicate StateSyncReceiptFor(receipts: seq<Receipt>, x: Receipt) {
    x.cumulative == 0 || (receipts != [] && x.cumulative == LastCumulative(receipts))
  }

  datatype Split = Split(normal: seq<Receipt>, bor: Option<Receipt>)

  /** Separates the state-sync receipt and derives its fields from the ordinary ones. After the
      Madhugiri fork, and outside the end of a sprint, nothing is split. */
  function SplitReceipts(decoded: seq<Receipt>, madhugiri: bool, sprintEnd: bool): (s: Split) {
    if decoded == [] || madhugiri || !sprintEnd || !IsStateSyncReceiptPresent(decoded) then Split(decoded, None)
    else
      var normal := decoded[..|decoded| - 1];
      var bor := decoded[|decoded| - 1];
      Split(normal, Some(bor.(success := true, cumulative := LastCumulative(normal))))
  }

  /** In the receipts of a serially processed block the test is exact: it answers true if and
      only if a state-sync receipt was appended. The split returns the original ordinary receipts
      and that one exactly at the end of a sprint before the Madhugiri fork; otherwise it leaves the
      list as it is. */
  lemma SplitIsExact(receipts: seq<Receipt>, x: Receipt, madhugiri: bool, sprintEnd: bool)
    requires Ascending(receipts)
    ensures !IsStateSyncReceiptPresent(receipts)
    ensures SplitReceipts(receipts, madhugiri, sprintEnd) == Split(receipts, None)
    ensures StateSyncReceiptFor(receipts, x) <==> IsStateSyncReceiptPresent(receipts + [x])
    ensures SplitReceipts(receipts + [x], madhugiri, sprintEnd) ==
              if StateSyncReceiptFor(receipts, x) && sprintEnd && !madhugiri
              then Split(receipts, Some(x.(success := true, cumulative := LastCumulative(receipts))))
              else Split(receipts + [x], None)
  {
    var all := receipts + [x];
    assert all[..|all| - 1] == receipts;
    if receipts != [] {
      assert StepsUp(receipts, |receipts| - 1);
    }
  }
}
