/** Applying one message to the state (core/state_transition.go, core/gaspool.go): buying gas,
    execution, refund, data floor, returning gas, burning and tipping. */
module StateTransition {
  import opened Wrappers
  import opened Naturals
  import opened Balances
  import opened GasCosts

  const MAX_TX_GAS: nat := 33554432
  const MAX_INIT_CODE_SIZE: nat := 49152
  const BLOB_GAS_PER_BLOB: nat := 131072
  const MAX_BLOBS: nat := 6
  const REFUND_QUOTIENT: nat := 2
  const REFUND_QUOTIENT_EIP3529: nat := 5

  // ---------- Transactions and messages ----------

  datatype Fee = Legacy(gasPrice: nat) | DynamicFee(tip: nat, cap: nat)

  datatype Transaction = Transaction(from: Address, to: Option<Address>, nonce: nat, value: nat, gas: nat, fee: Fee,
                                     data: seq<Byte>, accessList: Option<AccessList>, auths: Option<nat>,
                                     blobs: Option<nat>, blobVersionsOk: bool, blobFeeCap: nat)

  datatype Message = Message(from: Address, to: Option<Address>, nonce: nat, value: nat, gasLimit: nat,
                             gasPrice: nat, feeCap: nat, tipCap: nat,
                             data: seq<Byte>, accessList: Option<AccessList>, auths: Option<nat>,
                             blobs: Option<nat>, blobVersionsOk: bool, blobFeeCap: nat,
                             skipNonceChecks: bool, skipTransactionChecks: bool)

  function Cost(gas: nat, price: nat): (n: nat) { gas * price }

  /** The gas price is what the transaction offers: a legacy transaction its price; one with a fee
      cap at most the cap and at most the tip on top of the base fee, and one of the two (EIP-1559). */
  predicate OffersPrice(fee: Fee, baseFee: Option<nat>, price: nat) {
    match fee
    case Legacy(p) => price == p
    case DynamicFee(tip, cap) =>
      if baseFee.None? then price == cap
      else price <= cap && price <= baseFee.value + tip && (price == cap || price == baseFee.value + tip)
  }

  /** The caps of the message are those of the transaction; a legacy transaction offers its price as
      both. */
  predicate OffersCaps(fee: Fee, feeCap: nat, tipCap: nat) {
    match fee
    case Legacy(p) => feeCap == tipCap == p
    case DynamicFee(tip, cap) => feeCap == cap && tipCap == tip
  }

  /** Everything but the fee is taken over, and no check is skipped. */
  predicate CarriesOver(tx: Transaction, m: Message) {
    && m.from == tx.from && m.to == tx.to && m.nonce == tx.nonce && m.value == tx.value && m.gasLimit == tx.gas
    && m.data == tx.data && m.accessList == tx.accessList && m.auths == tx.auths
    && m.blobs == tx.blobs && m.blobVersionsOk == tx.blobVersionsOk && m.blobFeeCap == tx.blobFeeCap
    && !m.skipNonceChecks && !m.skipTransactionChecks
  }

  /** Message `m` is what transaction `tx` asks for. */
  predicate AskedBy(tx: Transaction, baseFee: Option<nat>, m: Message) {
    && CarriesOver(tx, m) && OffersPrice(tx.fee, baseFee, m.gasPrice) && OffersCaps(tx.fee, m.feeCap, m.tipCap)
  }

  /** The message of a transaction. With a base fee the gas price is the effective price of
      EIP-1559. */
  function TransactionToMessage(tx: Transaction, baseFee: Option<nat>): (m: Message)
    ensures AskedBy(tx, baseFee, m) && Priced(m, baseFee)
  {
    var cap := if tx.fee.Legacy? then tx.fee.gasPrice else tx.fee.cap;
    var tip := if tx.fee.Legacy? then tx.fee.gasPrice else tx.fee.tip;
    var price := if baseFee.Some? then Min(tip + baseFee.value, cap) else cap;
    Message(tx.from, tx.to, tx.nonce, tx.value, tx.gas, price, cap, tip, tx.data, tx.accessList, tx.auths,
            tx.blobs, tx.blobVersionsOk, tx.blobFeeCap, false, false)
  }

  /** A transaction asks for exactly one message. */
  lemma AskedExactly(tx: Transaction, baseFee: Option<nat>, m: Message)
    ensures AskedBy(tx, baseFee, m) <==> m == TransactionToMessage(tx, baseFee)
  {
    var n := TransactionToMessage(tx, baseFee);
    if AskedBy(tx, baseFee, m) {
      assert m.gasPrice == n.gasPrice && m.feeCap == n.feeCap && m.tipCap == n.tipCap;
    }
  }

  /** The price never exceeds the fee cap, never pays more than the tip cap on top of the base
      fee, and covers the base fee if the fee cap does. */
  predicate Priced(m: Message, baseFee: Option<nat>) {
    && m.gasPrice <= m.feeCap
    && (baseFee.Some? ==>
          && m.gasPrice <= m.tipCap + baseFee.value
          && (m.gasPrice == m.feeCap || m.gasPrice == m.tipCap + baseFee.value))
  }

  /** Every list of the message has fewer than 2^40 entries, so that it fits in memory. */
  predicate Sized(m: Message) {
    && |m.data| < 0x100_0000_0000
    && (m.accessList.Some? ==>
          m.accessList.value.addresses < 0x100_0000_0000 && m.accessList.value.storageKeys < 0x100_0000_0000)
    && (m.auths.Some? ==> m.auths.value < 0x100_0000_0000)
    && (m.blobs.Some? ==> m.blobs.value < 0x100_0000_0000)
  }

  // ---------- Block context ----------

  /** The fork rules and chain settings that matter here. `bor` holds the address credited with
      the burnt base fee; `noBaseFee` is set for calls that are not transactions. */
  datatype Rules = Rules(homestead: bool, istanbul: bool, london: bool, shanghai: bool, cancun: bool, prague: bool,
                         osaka: bool, madhugiri: bool, bor: Option<Address>, noBaseFee: bool)

  datatype Context = Context(coinbase: Address, baseFee: nat, blobBaseFee: nat)

  datatype Code = NoCode | Delegation | Contract
  datatype Sender = Sender(nonce: nat, code: Code)

  datatype Error =
    | NonceTooHigh | NonceTooLow | NonceMax | GasLimitTooHigh | SenderNoEOA | FeeCapVeryHigh | TipVeryHigh
    | TipAboveFeeCap | FeeCapTooLow | BlobTxCreate | MissingBlobHashes | TooManyBlobs | BadBlobVersion
    | BlobFeeCapTooLow | SetCodeTxCreate | EmptyAuthList | InsufficientFunds | GasLimitReached
    | GasUintOverflow | IntrinsicGasTooLow | FloorDataGasTooLow | InsufficientFundsForTransfer | MaxInitCodeSizeExceeded

  function BlobGas(m: Message): (g: nat) { if m.blobs.Some? then m.blobs.value * BLOB_GAS_PER_BLOB else 0 }

  function FeeCheck(rules: Rules, ctx: Context, m: Message): (e: Option<Error>) {
    if !rules.london || (rules.noBaseFee && m.feeCap == 0 && m.tipCap == 0) then None
    else if m.feeCap >= U256 then Some(FeeCapVeryHigh)
    else if m.tipCap >= U256 then Some(TipVeryHigh)
    else if m.feeCap < m.tipCap then Some(TipAboveFeeCap)
    else if m.feeCap < ctx.baseFee then Some(FeeCapTooLow)
    else None
  }

  function BlobCheck(rules: Rules, ctx: Context, m: Message): (e: Option<Error>) {
    if m.blobs.Some? && m.to.None? then Some(BlobTxCreate)
    else if m.blobs.Some? && m.blobs.value == 0 then Some(MissingBlobHashes)
    else if m.blobs.Some? && rules.osaka && m.blobs.value > MAX_BLOBS then Some(TooManyBlobs)
    else if m.blobs.Some? && !m.blobVersionsOk then Some(BadBlobVersion)
    else if rules.cancun && BlobGas(m) > 0 && !(rules.noBaseFee && m.blobFeeCap == 0) && m.blobFeeCap < ctx.blobBaseFee
    then Some(BlobFeeCapTooLow)
    else None
  }

  /** All checks that precede buying gas, in order. */
  function PreCheck(rules: Rules, ctx: Context, m: Message, sender: Sender): (e: Option<Error>) {
    if !m.skipNonceChecks && sender.nonce < m.nonce then Some(NonceTooHigh)
    else if !m.skipNonceChecks && sender.nonce > m.nonce then Some(NonceTooLow)
    else if !m.skipNonceChecks && sender.nonce >= MAX64 then Some(NonceMax)
    else if !m.skipTransactionChecks && (rules.osaka || rules.madhugiri) && m.gasLimit > MAX_TX_GAS
    then Some(GasLimitTooHigh)
    else if !m.skipTransactionChecks && sender.code.Contract? then Some(SenderNoEOA)
    else if FeeCheck(rules, ctx, m).Some? then FeeCheck(rules, ctx, m)
    else if BlobCheck(rules, ctx, m).Some? then BlobCheck(rules, ctx, m)
    else if m.auths.Some? && m.to.None? then Some(SetCodeTxCreate)
    else if m.auths.Some? && m.auths.value == 0 then Some(EmptyAuthList)
    else None
  }

  /** What each error of these checks means. */
  predicate Violates(rules: Rules, ctx: Context, m: Message, sender: Sender, e: Error) {
    var feesChecked := rules.london && !(rules.noBaseFee && m.feeCap == 0 && m.tipCap == 0);
    match e
    case NonceTooHigh => !m.skipNonceChecks && m.nonce > sender.nonce
    case NonceTooLow => !m.skipNonceChecks && m.nonce < sender.nonce
    case NonceMax => !m.skipNonceChecks && sender.nonce >= MAX64
    case GasLimitTooHigh => !m.skipTransactionChecks && (rules.osaka || rules.madhugiri) && m.gasLimit > MAX_TX_GAS
    case SenderNoEOA => !m.skipTransactionChecks && sender.code == Contract
    case FeeCapVeryHigh => feesChecked && m.feeCap >= U256
    case TipVeryHigh => feesChecked && m.tipCap >= U256
    case TipAboveFeeCap => feesChecked && m.tipCap > m.feeCap
    case FeeCapTooLow => feesChecked && ctx.baseFee > m.feeCap
    case BlobTxCreate => m.blobs.Some? && m.to.None?
    case MissingBlobHashes => m.blobs == Some(0)
    case TooManyBlobs => rules.osaka && m.blobs.Some? && m.blobs.value > MAX_BLOBS
    case BadBlobVersion => m.blobs.Some? && !m.blobVersionsOk
    case BlobFeeCapTooLow =>
      && rules.cancun && m.blobs.Some? && m.blobs.value > 0
      && ctx.blobBaseFee > m.blobFeeCap && !(rules.noBaseFee && m.blobFeeCap == 0)
    case SetCodeTxCreate => m.auths.Some? && m.to.None?
    case EmptyAuthList => m.auths == Some(0)
    case _ => false
  }

  /** The order in which the checks are made. */
  function Rank(e: Error): (n: nat) {
    match e
    case NonceTooHigh => 0
    case NonceTooLow => 1
    case NonceMax => 2
    case GasLimitTooHigh => 3
    case SenderNoEOA => 4
    case FeeCapVeryHigh => 5
    case TipVeryHigh => 6
    case TipAboveFeeCap => 7
    case FeeCapTooLow => 8
    case BlobTxCreate => 9
    case MissingBlobHashes => 10
    case TooManyBlobs => 11
    case BadBlobVersion => 12
    case BlobFeeCapTooLow => 13
    case SetCodeTxCreate => 14
    case EmptyAuthList => 15
    case _ => 16
  }

  /** The checks report exactly the first violation. */
  lemma PreCheckExact(rules: Rules, ctx: Context, m: Message, sender: Sender, e: Error)
    ensures PreCheck(rules, ctx, m, sender) == Some(e) <==>
              && Violates(rules, ctx, m, sender, e)
              && forall x :: Violates(rules, ctx, m, sender, x) ==> Rank(e) <= Rank(x)
    ensures PreCheck(rules, ctx, m, sender).None? <==> forall x :: !Violates(rules, ctx, m, sender, x)
  {
    var pre := PreCheck(rules, ctx, m, sender);
    if pre.Some? {
      FirstViolation(rules, ctx, m, sender, pre.value);
      if Violates(rules, ctx, m, sender, e) && Rank(e) == Rank(pre.value) {
        assert e == pre.value;
      }
    }
  }

  lemma FirstViolation(rules: Rules, ctx: Context, m: Message, sender: Sender, e: Error)
    requires PreCheck(rules, ctx, m, sender) == Some(e)
    ensures Violates(rules, ctx, m, sender, e) && Rank(e) < 16
    ensures forall x :: Violates(rules, ctx, m, sender, x) ==> Rank(e) <= Rank(x)
  {
  }

  /** An accepted message carries its sender's nonce, so that none is accepted twice. */
  lemma AcceptedNonce(rules: Rules, ctx: Context, m: Message, sender: Sender)
    requires PreCheck(rules, ctx, m, sender).None? && !m.skipNonceChecks
    ensures m.nonce == sender.nonce < MAX64
  {
    PreCheckExact(rules, ctx, m, sender, NonceTooLow);
    assert !Violates(rules, ctx, m, sender, NonceTooLow) && !Violates(rules, ctx, m, sender, NonceTooHigh);
    assert !Violates(rules, ctx, m, sender, NonceMax);
  }

  /** The price covers the base fee, and the blob fee cap covers the blob base fee. */
  predicate Covered(rules: Rules, ctx: Context, m: Message) {
    && (rules.london ==> ctx.baseFee <= m.gasPrice)
    && (rules.cancun && BlobGas(m) > 0 ==> ctx.blobBaseFee <= m.blobFeeCap)
  }

  /** The checks were waived although the fees they protect are not zero. */
  predicate Waived(rules: Rules, ctx: Context, m: Message) {
    rules.noBaseFee &&
    ((rules.london && m.feeCap == 0 && m.tipCap == 0 && ctx.baseFee > 0)
     || (rules.cancun && BlobGas(m) > 0 && m.blobFeeCap == 0 && ctx.blobBaseFee > 0))
  }

  /** An accepted transaction covers its fees if and only if no check was waived; transactions
      in blocks are never processed with waived checks. */
  lemma AcceptedIsCovered(rules: Rules, ctx: Context, m: Message, sender: Sender)
    requires Priced(m, if rules.london then Some(ctx.baseFee) else None)
    requires PreCheck(rules, ctx, m, sender).None?
    ensures Covered(rules, ctx, m) <==> !Waived(rules, ctx, m)
  {
  }

  /** A call with waived checks for which the tip is negative. */
  lemma WaivedTipIsNegative() returns (rules: Rules, ctx: Context, m: Message)
    ensures Priced(m, Some(ctx.baseFee)) && rules.london && PreCheck(rules, ctx, m, Sender(0, NoCode)).None?
    ensures Waived(rules, ctx, m) && Tip(rules, ctx, m, TX_GAS) < 0
  {
    rules := Rules(true, true, true, true, true, false, false, false, None, true);
    ctx := Context(1, 7, 0);
    var tx := Transaction(2, Some(3), 0, 0, TX_GAS, DynamicFee(0, 0), [], None, None, None, true, 0);
    m := TransactionToMessage(tx, Some(7));
  }

  /** A call with waived checks that passes the balance check with an empty account and is then
      charged a blob fee it cannot pay. */
  lemma WaivedBlobFeeOverdraws() returns (rules: Rules, ctx: Context, m: Message)
    ensures Priced(m, Some(ctx.baseFee)) && rules.london && PreCheck(rules, ctx, m, Sender(0, NoCode)).None?
    ensures Waived(rules, ctx, m) && RequiredBalance(rules, m) == 0 < Prepaid(rules, ctx, m)
  {
    rules := Rules(true, true, true, true, true, false, false, false, None, true);
    ctx := Context(1, 0, 5);
    var tx := Transaction(2, Some(3), 0, 0, TX_GAS, DynamicFee(0, 0), [], None, None, Some(1), true, 0);
    m := TransactionToMessage(tx, Some(0));
  }

  /** The balance a sender must show, and the amount taken up front. */
  function RequiredBalance(rules: Rules, m: Message): (n: nat) {
    m.gasLimit * m.feeCap + m.value + (if rules.cancun then BlobGas(m) * m.blobFeeCap else 0)
  }

  function BlobFee(rules: Rules, ctx: Context, m: Message): (n: nat) {
    if rules.cancun then BlobGas(m) * ctx.blobBaseFee else 0
  }

  function Prepaid(rules: Rules, ctx: Context, m: Message): (n: nat) {
    m.gasLimit * m.gasPrice + BlobFee(rules, ctx, m)
  }

  /** The balance a sender must show is what suffices at every price up to the fee cap and every blob
      base fee up to the blob fee cap, and no more. A blob takes 131072 gas. */
  lemma RequiredIsWorstCase(rules: Rules, m: Message, have: nat)
    ensures RequiredBalance(rules, m) <= have <==>
              forall price: nat, blobFee: nat :: price <= m.feeCap && blobFee <= m.blobFeeCap ==>
                WorstCase(rules, m, price, blobFee) <= have
  {
    var blobGas := if m.blobs.Some? then 131072 * m.blobs.value else 0;
    assert WorstCase(rules, m, m.feeCap, m.blobFeeCap) == RequiredBalance(rules, m);
    forall price: nat, blobFee: nat | price <= m.feeCap && blobFee <= m.blobFeeCap
      ensures WorstCase(rules, m, price, blobFee) <= WorstCase(rules, m, m.feeCap, m.blobFeeCap)
    {
      MulLe(m.gasLimit, price, m.feeCap);
      MulLe(blobGas, blobFee, m.blobFeeCap);
    }
  }

  /** What a message costs at most at the given gas price and blob base fee, with its value. */
  function WorstCase(rules: Rules, m: Message, price: nat, blobFee: nat): (n: nat) {
    m.gasLimit * price + m.value
    + (if rules.cancun && m.blobs.Some? then 131072 * m.blobs.value * blobFee else 0)
  }

  /** What is taken up front is the cost at the actual prices, without the value. */
  lemma PrepaidIsActual(rules: Rules, ctx: Context, m: Message)
    ensures Prepaid(rules, ctx, m) + m.value == WorstCase(rules, m, m.gasPrice, ctx.blobBaseFee)
  {
  }

  /** A covered message that passes the balance check can pay its gas and still its value. */
  lemma PrepaidIsAffordable(rules: Rules, ctx: Context, m: Message, have: nat)
    requires m.gasPrice <= m.feeCap && Covered(rules, ctx, m) && RequiredBalance(rules, m) <= have
    ensures Prepaid(rules, ctx, m) + m.value <= have
  {
    MulLe(m.gasLimit, m.gasPrice, m.feeCap);
    if BlobGas(m) > 0 && rules.cancun {
      MulLe(BlobGas(m), ctx.blobBaseFee, m.blobFeeCap);
    }
  }

  lemma MulLe(a: nat, b: nat, c: nat)
    requires b <= c
    ensures a * b <= a * c
  {
  }

  // ---------- Gas pool ----------

  class GasPool {
    var gas: nat

    constructor (amount: nat)
      ensures gas == amount
    {
      gas := amount;
    }

    /** Pushing the pool above 64 bits is a programming error (AddGas panics). */
    method AddGas(amount: nat)
      requires gas + amount <= MAX64
      modifies this
      ensures gas == old(gas) + amount
    {
      gas := gas + amount;
    }

    method SubGas(amount: nat) returns (ok: bool)
      modifies this
      ensures ok == (old(gas) >= amount)
      ensures gas == if ok then old(gas) - amount else old(gas)
    {
      ok := gas >= amount;
      if ok {
        gas := gas - amount;
      }
    }
  }

  // ---------- Refund and floor ----------

  /** Gas used and the maximum used, after capped refund and data floor. */
  datatype Settlement = Settlement(used: nat, maxUsed: nat)

  /** Using `u` gas grants no more than the refund counter, no more than the capped share of the
      gas used before the refund (EIP-3529), and no less than the data floor (EIP-7623). */
  predicate Allowed(u: nat, peak: nat, counter: nat, floor: nat, london: bool) {
    && floor <= u && peak <= u + counter
    && (if london then 4 * peak <= 5 * u else peak <= 2 * u)
  }

  /** The least gas use that is allowed. */
  ghost predicate LeastUse(used: nat, peak: nat, counter: nat, floor: nat, london: bool) {
    && Allowed(used, peak, counter, floor, london)
    && forall u: nat :: Allowed(u, peak, counter, floor, london) ==> used <= u
  }

  ghost predicate SettledWithin(s: Settlement, limit: nat, left: nat, floor: nat, london: bool) {
    && floor <= s.used <= s.maxUsed <= limit
    && limit - left <= s.maxUsed
    && (london ==> 5 * s.used >= 4 * (limit - left))
    && 2 * s.used >= limit - left
  }

  // ---------- The transition ----------

  /** What an EVM call gives back: balances, unspent gas, the refund counter, success. */
  datatype EvmResult = EvmResult(ledger: Ledger, gasLeft: nat, refund: nat, failed: bool)
  type Evm = (Ledger, nat) -> EvmResult

  /** An EVM step that moves value but neither creates nor destroys it, and returns no more gas
      than it was given. */
  ghost predicate Fair(evm: Evm) {
    forall l: Ledger, g: nat {:trigger evm(l, g)} :: Total(evm(l, g).ledger) == Total(l) && evm(l, g).gasLeft <= g
  }

  datatype Result =
    | Rejected(error: Error)
    | Applied(used: nat, maxUsed: nat, failed: bool, burnt: Option<nat>, tipped: int)

  function Abs(x: int): (n: nat) { if x < 0 then -x else x }

  function Tip(rules: Rules, ctx: Context, m: Message, used: nat): (t: int) {
    used * (if rules.london then m.gasPrice - ctx.baseFee else m.gasPrice)
  }

  function Burnt(rules: Rules, ctx: Context, used: nat): (b: Option<nat>) {
    if rules.london && rules.bor.Some? then Some(used * ctx.baseFee) else None
  }

  /** Crediting the burnt base fee and the tip. The tip is converted by its absolute value. */
  function Credit(rules: Rules, ctx: Context, m: Message, used: nat, l: Ledger): (r: Ledger) {
    var l1 := if rules.london && rules.bor.Some? then Add(l, rules.bor.value, used * ctx.baseFee) else l;
    Add(l1, ctx.coinbase, Abs(Tip(rules, ctx, m, used)))
  }

  /** The base fee that leaves the supply when there is no burn address. */
  function LostBaseFee(rules: Rules, ctx: Context, used: nat): (n: nat) {
    if rules.london && rules.bor.None? then used * ctx.baseFee else 0
  }

  function BaseShare(rules: Rules, ctx: Context, used: nat): (n: nat) {
    if rules.london then used * ctx.baseFee else 0
  }

  /** A covered base fee and the tip add up to what was paid for the used gas; otherwise the tip
      is negative. */
  lemma FeesAddUp(rules: Rules, ctx: Context, m: Message, used: nat)
    ensures BaseShare(rules, ctx, used) + Tip(rules, ctx, m, used) == used * m.gasPrice
    ensures Covered(rules, ctx, m) ==> Tip(rules, ctx, m, used) >= 0
    ensures rules.london && ctx.baseFee > m.gasPrice && used > 0 ==> Tip(rules, ctx, m, used) < 0
  {
    if rules.london {
      var d := m.gasPrice - ctx.baseFee;
      assert used * m.gasPrice == used * (ctx.baseFee + d) == used * ctx.baseFee + used * d;
      if d < 0 && used > 0 {
        MulLe(used, 1, -d);
      }
    }
  }

  /** With a covered base fee, crediting burn and tip gives back what was paid for the used gas,
      less the base fee nobody receives. With a base fee that is not covered it creates value. */
  lemma CreditTotal(rules: Rules, ctx: Context, m: Message, used: nat, l: Ledger)
    requires Total(l) + BaseShare(rules, ctx, used) + Abs(Tip(rules, ctx, m, used)) < U256
    ensures Covered(rules, ctx, m) ==>
              Total(Credit(rules, ctx, m, used, l)) + LostBaseFee(rules, ctx, used) == Total(l) + used * m.gasPrice
    ensures rules.london && ctx.baseFee > m.gasPrice && used > 0 ==>
              Total(Credit(rules, ctx, m, used, l)) + LostBaseFee(rules, ctx, used) > Total(l) + used * m.gasPrice
  {
    FeesAddUp(rules, ctx, m, used);
    var tip := Tip(rules, ctx, m, used);
    var l1 := if rules.london && rules.bor.Some? then Add(l, rules.bor.value, used * ctx.baseFee) else l;
    if rules.london && rules.bor.Some? {
      AddTotal(l, rules.bor.value, used * ctx.baseFee);
    }
    AddTotal(l1, ctx.coinbase, Abs(tip));
  }

  /** What account `a` receives for `used` gas at the given price: the burn address the base fee, the
      coinbase the rest, and an account that is both of them both. */
  function FeeShare(rules: Rules, ctx: Context, price: nat, used: nat, a: Address): (n: int) {
    var base := if rules.london then ctx.baseFee else 0;
    (if rules.bor == Some(a) then used * base else 0) + (if a == ctx.coinbase then used * (price - base) else 0)
  }

  /** Ledger `l'` is `l` with the fees for the used gas, account by account. */
  ghost predicate FeesReceived(rules: Rules, ctx: Context, price: nat, used: nat, l: Ledger, l': Ledger) {
    forall a: Address {:trigger Get(l', a)} :: Get(l', a) == Get(l, a) + FeeShare(rules, ctx, price, used, a)
  }

  /** Crediting a covered message credits the burn address with the base fee, the coinbase with the
      tip, and nobody else. */
  lemma CreditAccounts(rules: Rules, ctx: Context, m: Message, used: nat, l: Ledger)
    requires Covered(rules, ctx, m) && Total(l) + used * m.gasPrice < U256
    ensures FeesReceived(rules, ctx, m.gasPrice, used, l, Credit(rules, ctx, m, used, l))
  {
    FeesAddUp(rules, ctx, m, used);
    var burn := if rules.london then rules.bor else None;
    CreditTwo(l, burn, BaseShare(rules, ctx, used), ctx.coinbase, Tip(rules, ctx, m, used));
  }

  /** Crediting two accounts, which may be one. */
  lemma CreditTwo(l: Ledger, burn: Option<Address>, base: nat, coinbase: Address, tip: nat)
    requires Total(l) + base + tip < U256
    ensures var l1 := if burn.Some? then Add(l, burn.value, base) else l;
            forall a: Address {:trigger Get(Add(l1, coinbase, tip), a)} ::
              Get(Add(l1, coinbase, tip), a) ==
                Get(l, a) + (if burn == Some(a) then base else 0) + (if a == coinbase then tip else 0)
  {
    if burn.Some? {
      AddTotal(l, burn.value, base);
    }
    AddTotal(if burn.Some? then Add(l, burn.value, base) else l, coinbase, tip);
  }

  /** The shares, said one by one. */
  lemma FeeShares(rules: Rules, ctx: Context, price: nat, used: nat, a: Address)
    ensures a != ctx.coinbase && rules.bor == Some(a) && rules.london ==>
              FeeShare(rules, ctx, price, used, a) == used * ctx.baseFee
    ensures a == ctx.coinbase && rules.bor != Some(a) && rules.london ==>
              FeeShare(rules, ctx, price, used, a) == used * (price - ctx.baseFee)
    ensures a == ctx.coinbase && rules.bor == Some(a) ==> FeeShare(rules, ctx, price, used, a) == used * price
    ensures a == ctx.coinbase && !rules.london ==> FeeShare(rules, ctx, price, used, a) == used * price
    ensures a != ctx.coinbase && (rules.bor != Some(a) || !rules.london) ==> FeeShare(rules, ctx, price, used, a) == 0
  {
    if rules.london {
      assert used * ctx.baseFee + used * (price - ctx.baseFee) == used * price;
    }
  }

  /** Buying gas with a covered message takes exactly the prepaid amount and leaves the value. */
  lemma Bought(rules: Rules, ctx: Context, m: Message, l: Ledger)
    requires m.gasPrice <= m.feeCap && Covered(rules, ctx, m) && Total(l) < U256
    requires RequiredBalance(rules, m) < U256 && RequiredBalance(rules, m) <= Get(l, m.from)
    ensures var l' := Sub(l, m.from, Prepaid(rules, ctx, m) % U256);
            && m.value < U256 && m.value <= Get(l', m.from)
            && Prepaid(rules, ctx, m) + m.value <= Get(l, m.from)
            && Total(l') + Prepaid(rules, ctx, m) == Total(l)
            && Raised(l', l, m.from, Prepaid(rules, ctx, m))
  {
    PrepaidIsAffordable(rules, ctx, m, RequiredBalance(rules, m));
    WrapSmall(Prepaid(rules, ctx, m));
    SubTotal(l, m.from, Prepaid(rules, ctx, m));
  }

  lemma WrapSmall(x: nat)
    requires x < U256
    ensures x % U256 == x
  {
  }

  function PayloadOf(rules: Rules, m: Message): (p: Payload) {
    Payload(m.data, m.accessList, m.auths, m.to.None?, rules.homestead, rules.istanbul, rules.shanghai)
  }

  class Transition {
    const rules: Rules
    const ctx: Context
    const msg: Message
    const pool: GasPool
    var ledger: Ledger
    var gasRemaining: nat
    var initialGas: nat

    constructor (rules: Rules, ctx: Context, msg: Message, pool: GasPool, ledger: Ledger)
      ensures this.rules == rules && this.ctx == ctx && this.msg == msg && this.pool == pool && this.ledger == ledger
    {
      this.rules, this.ctx, this.msg, this.pool, this.ledger := rules, ctx, msg, pool, ledger;
      gasRemaining, initialGas := 0, 0;
    }

    /** Checks the balance against the fee caps and buys the whole gas limit at the gas price. */
    method BuyGas() returns (err: Option<Error>)
      modifies this, pool
      ensures err == if RequiredBalance(rules, msg) >= U256 || Get(old(ledger), msg.from) < RequiredBalance(rules, msg)
                     then Some(InsufficientFunds)
                     else if old(pool.gas) < msg.gasLimit then Some(GasLimitReached) else None
      ensures err.Some? ==> ledger == old(ledger) && pool.gas == old(pool.gas)
      ensures err.None? ==>
                && ledger == Sub(old(ledger), msg.from, Prepaid(rules, ctx, msg) % U256)
                && pool.gas == old(pool.gas) - msg.gasLimit
                && gasRemaining == initialGas == msg.gasLimit
    {
      var mgval := msg.gasLimit * msg.gasPrice;
      var balanceCheck := msg.gasLimit * msg.feeCap + msg.value;
      if rules.cancun && BlobGas(msg) > 0 {
        balanceCheck := balanceCheck + BlobGas(msg) * msg.blobFeeCap;
        mgval := mgval + BlobGas(msg) * ctx.blobBaseFee;
      }
      if balanceCheck >= U256 {
        return Some(InsufficientFunds);
      }
      if Get(ledger, msg.from) < balanceCheck {
        return Some(InsufficientFunds);
      }
      var ok := pool.SubGas(msg.gasLimit);
      if !ok {
        return Some(GasLimitReached);
      }
      gasRemaining, initialGas := msg.gasLimit, msg.gasLimit;
      ledger := Sub(ledger, msg.from, mgval % U256);
      err := None;
    }

    /** Adds the capped refund and applies the data floor. Used gas ends between the floor and
        the limit, at most the reported maximum, and at least four fifths (half before London)
        of what was used before the refund. */
    method SettleGas(refundCounter: nat, floor: nat) returns (s: Settlement)
      requires gasRemaining <= initialGas <= MAX64 && floor <= initialGas && (!rules.prague ==> floor == 0)
      modifies this`gasRemaining
      ensures SettledWithin(s, initialGas, old(gasRemaining), floor, rules.london)
      ensures gasRemaining == initialGas - s.used
      ensures LeastUse(s.used, initialGas - old(gasRemaining), refundCounter, floor, rules.london)
      ensures s.maxUsed == initialGas - old(gasRemaining) || s.maxUsed == floor
    {
      var peak := initialGas - gasRemaining;
      var refund := peak / (if rules.london then REFUND_QUOTIENT_EIP3529 else REFUND_QUOTIENT);
      if refund > refundCounter {
        refund := refundCounter;
      }
      gasRemaining := gasRemaining + refund;
      if rules.prague {
        if initialGas - gasRemaining < floor {
          gasRemaining := initialGas - floor;
        }
        if peak < floor {
          peak := floor;
        }
      }
      s := Settlement(initialGas - gasRemaining, peak);
    }

    /** Returns the unused gas to the sender at the original rate and to the block's pool. */
    method ReturnGas()
      requires msg.gasPrice < U256 && pool.gas + gasRemaining <= MAX64
      modifies this`ledger, pool
      ensures ledger == Add(old(ledger), msg.from, Cost(gasRemaining, msg.gasPrice))
      ensures pool.gas == old(pool.gas) + gasRemaining
    {
      ledger := Add(ledger, msg.from, (gasRemaining * msg.gasPrice) % U256);
      pool.AddGas(gasRemaining);
      WrapTwice(Get(old(ledger), msg.from), gasRemaining * msg.gasPrice);
    }

    /** Applies the message. With `noFeeBurnAndTip` the burnt fee and the tip are only reported.
        `settled` is the ledger before they are credited. */
    method Execute(evm: Evm, sender: Sender, noFeeBurnAndTip: bool) returns (r: Result, ghost settled: Ledger)
      requires Fair(evm) && Sized(msg) && msg.gasLimit <= MAX64 && pool.gas <= MAX64
      requires msg.gasPrice <= msg.feeCap && Total(ledger) < U256
      modifies this, pool
      ensures r.Applied? && rules.prague ==> FloorCost(msg.data) <= r.used
      ensures r.Applied? ==> GasWithin(rules, msg, r.used, r.maxUsed)
      ensures r.Applied? ==> pool.gas == old(pool.gas) - r.used
      ensures r.Rejected? ==> pool.gas == old(pool.gas) || pool.gas == old(pool.gas) - msg.gasLimit
      ensures r.Applied? ==> r.tipped == Tip(rules, ctx, msg, r.used) && r.burnt == Burnt(rules, ctx, r.used)
      ensures r.Applied? ==> ledger == if noFeeBurnAndTip then settled else Credit(rules, ctx, msg, r.used, settled)
      ensures r.Applied? <==> Acceptable(rules, ctx, msg, sender, old(ledger), old(pool.gas))
      ensures r.Applied? && !msg.skipNonceChecks ==> msg.nonce == sender.nonce < MAX64
      ensures r.Applied? ==>
                && IntrinsicOf(rules, msg) <= msg.gasLimit
                && Outcome(rules, msg, evm(AfterPurchase(rules, ctx, msg, old(ledger)),
                  msg.gasLimit - IntrinsicOf(rules, msg)), r, settled)
      // A covered message neither overdraws its sender nor fails the transfer check, pays no
      // negative tip, and changes the supply only by the blob fee and a base fee nobody receives.
      ensures Covered(rules, ctx, msg) ==> r != Rejected(InsufficientFundsForTransfer)
      ensures Covered(rules, ctx, msg) && r.Applied? ==>
                && Prepaid(rules, ctx, msg) + msg.value <= Get(old(ledger), msg.from)
                && r.tipped >= 0
                && Total(settled) + BlobFee(rules, ctx, msg) + r.used * msg.gasPrice == Total(old(ledger))
                && (!noFeeBurnAndTip ==>
                      Total(ledger) + BlobFee(rules, ctx, msg) + LostBaseFee(rules, ctx, r.used) == Total(old(ledger)))
      // The sender pays the whole limit up front and gets the unused part back; the burn address
      // receives the base fee and the coinbase the tip for the used gas.
      ensures Covered(rules, ctx, msg) && r.Applied? ==>
                var bought := AfterPurchase(rules, ctx, msg, old(ledger));
                && IntrinsicOf(rules, msg) <= msg.gasLimit
                && Raised(bought, old(ledger), msg.from, Prepaid(rules, ctx, msg))
                && Distributed(rules, ctx, msg, evm(bought, msg.gasLimit - IntrinsicOf(rules, msg)).ledger, r.used,
                               settled, noFeeBurnAndTip, ledger)
    {
      settled := ledger;
      var err, floor := Admit(sender);
      if err.Some? {
        return Rejected(err.value), settled;
      }
      r, settled := RunAndSettle(evm, floor, Total(old(ledger)), noFeeBurnAndTip);
      SizedFloor(msg);
    }

    /** The checks that precede buying gas, and buying it. */
    method Purchase(sender: Sender) returns (err: Option<Error>)
      requires msg.gasPrice <= msg.feeCap && Total(ledger) < U256
      modifies this, pool
      ensures err.Some? ==> pool.gas == old(pool.gas)
      ensures err != Some(InsufficientFundsForTransfer)
      ensures err.None? && !msg.skipNonceChecks ==> msg.nonce == sender.nonce < MAX64
      ensures err.None? <==>
                && PreCheck(rules, ctx, msg, sender).None? && RequiredBalance(rules, msg) < U256
                && RequiredBalance(rules, msg) <= Get(old(ledger), msg.from) && msg.gasLimit <= old(pool.gas)
      ensures err.None? ==>
                && ledger == AfterPurchase(rules, ctx, msg, old(ledger))
                && pool.gas == old(pool.gas) - msg.gasLimit && gasRemaining == initialGas == msg.gasLimit
                && (Covered(rules, ctx, msg) ==>
                      && msg.value < U256 && msg.value <= Get(ledger, msg.from)
                      && Prepaid(rules, ctx, msg) + msg.value <= Get(old(ledger), msg.from)
                      && Raised(ledger, old(ledger), msg.from, Prepaid(rules, ctx, msg))
                      && Total(ledger) + Prepaid(rules, ctx, msg) == Total(old(ledger)))
    {
      var pre := PreCheck(rules, ctx, msg, sender);
      if pre.Some? {
        return pre;
      }
      if !msg.skipNonceChecks {
        AcceptedNonce(rules, ctx, msg, sender);
      }
      err := BuyGas();
      if err.None? && Covered(rules, ctx, msg) {
        Bought(rules, ctx, msg, old(ledger));
      }
    }

    /** Everything before the EVM runs: checks, buying gas, intrinsic gas, data floor, transfer
        check. */
    method Admit(sender: Sender) returns (err: Option<Error>, floor: nat)
      requires Sized(msg) && msg.gasLimit <= MAX64 && msg.gasPrice <= msg.feeCap && Total(ledger) < U256
      modifies this, pool
      ensures err.Some? ==> pool.gas == old(pool.gas) || pool.gas == old(pool.gas) - msg.gasLimit
      ensures err.None? <==> Acceptable(rules, ctx, msg, sender, old(ledger), old(pool.gas))
      ensures err.None? && !msg.skipNonceChecks ==> msg.nonce == sender.nonce < MAX64
      ensures err.None? ==> ledger == AfterPurchase(rules, ctx, msg, old(ledger))
      ensures Covered(rules, ctx, msg) ==> err != Some(InsufficientFundsForTransfer)
      ensures err.None? ==>
                && PreCheck(rules, ctx, msg, sender).None?
                && old(pool.gas) >= msg.gasLimit && pool.gas == old(pool.gas) - msg.gasLimit
                && msg.gasPrice < U256 && initialGas == msg.gasLimit && Charged(rules, msg, gasRemaining, floor)
                && (Covered(rules, ctx, msg) ==>
                      && Prepaid(rules, ctx, msg) + msg.value <= Get(old(ledger), msg.from)
                      && Raised(ledger, old(ledger), msg.from, Prepaid(rules, ctx, msg))
                      && Total(ledger) + Prepaid(rules, ctx, msg) == Total(old(ledger)))
    {
      floor := 0;
      err := Purchase(sender);
      if err.Some? {
        return;
      }
      err, floor := ChargeIntrinsic();
      if err.Some? {
        return;
      }
      PriceFits(rules, msg);
      if msg.value >= U256 || (msg.value != 0 && Get(ledger, msg.from) < msg.value) {
        return Some(InsufficientFundsForTransfer), floor;
      }
      if rules.shanghai && msg.to.None? && |msg.data| > MAX_INIT_CODE_SIZE {
        return Some(MaxInitCodeSizeExceeded), floor;
      }
      err := None;
    }

    /** Deducts the intrinsic gas and checks the limit against the data floor. */
    method ChargeIntrinsic() returns (err: Option<Error>, floor: nat)
      requires Sized(msg) && gasRemaining == initialGas == msg.gasLimit
      modifies this`gasRemaining
      ensures err.None? ==> Charged(rules, msg, gasRemaining, floor)
      ensures err.None? <==> PaysData(rules, msg)
      ensures err.Some? ==> err.value in {GasUintOverflow, IntrinsicGasTooLow, FloorDataGasTooLow}
    {
      floor := 0;
      SizedCost(rules, msg);
      var gas := IntrinsicGas(PayloadOf(rules, msg));
      if gas.None? {
        return Some(GasUintOverflow), floor;
      }
      if gasRemaining < gas.value {
        return Some(IntrinsicGasTooLow), floor;
      }
      if rules.prague {
        var f := FloorDataGas(msg.data);
        if f.None? {
          return Some(GasUintOverflow), floor;
        }
        if msg.gasLimit < f.value {
          return Some(FloorDataGasTooLow), floor;
        }
        floor := f.value;
      }
      gasRemaining := gasRemaining - gas.value;
      err := None;
    }

    /** Runs the EVM and settles gas and fees. `total` is the supply before gas was bought. */
    method RunAndSettle(evm: Evm, floor: nat, ghost total: nat, noFeeBurnAndTip: bool)
      returns (r: Result, ghost settled: Ledger)
      requires Fair(evm) && Sized(msg) && msg.gasLimit <= MAX64 && pool.gas + msg.gasLimit <= MAX64
      requires msg.gasPrice < U256 && initialGas == msg.gasLimit && Charged(rules, msg, gasRemaining, floor) &&
               total < U256
      requires Covered(rules, ctx, msg) ==> Total(ledger) + Prepaid(rules, ctx, msg) == total
      modifies this, pool
      ensures r.Applied? && GasWithin(rules, msg, r.used, r.maxUsed)
      ensures Outcome(rules, msg, evm(old(ledger), old(gasRemaining)), r, settled)
      ensures pool.gas == old(pool.gas) + msg.gasLimit - r.used
      ensures r.tipped == Tip(rules, ctx, msg, r.used) && r.burnt == Burnt(rules, ctx, r.used)
      ensures ledger == if noFeeBurnAndTip then settled else Credit(rules, ctx, msg, r.used, settled)
      ensures Covered(rules, ctx, msg) ==>
                && Conserved(rules, ctx, msg, r.used, settled, noFeeBurnAndTip, ledger, total)
                && Distributed(rules, ctx, msg, evm(old(ledger), old(gasRemaining)).ledger, r.used, settled,
                               noFeeBurnAndTip, ledger)
    {
      var out := evm(ledger, gasRemaining);
      var s := Settle(out, floor);
      settled := ledger;
      if Covered(rules, ctx, msg) {
        SettledWell(rules, ctx, msg, out.ledger, s.used, noFeeBurnAndTip, total);
      }
      var amount := Tip(rules, ctx, msg, s.used);
      var burnAmount := Burnt(rules, ctx, s.used);
      if !noFeeBurnAndTip {
        ledger := Credit(rules, ctx, msg, s.used, ledger);
      }
      r := Applied(s.used, s.maxUsed, out.failed, burnAmount, amount);
    }

    /** Takes over what the EVM returned, settles the gas used and returns the rest. */
    method Settle(out: EvmResult, floor: nat) returns (s: Settlement)
      requires Sized(msg) && msg.gasLimit <= MAX64 && pool.gas + msg.gasLimit <= MAX64 && msg.gasPrice < U256
      requires initialGas == msg.gasLimit && Charged(rules, msg, gasRemaining, floor) && out.gasLeft <= gasRemaining
      modifies this, pool
      ensures GasWithin(rules, msg, s.used, s.maxUsed)
      ensures LeastUse(s.used, msg.gasLimit - out.gasLeft, out.refund, floor, rules.london)
      ensures ledger == Add(out.ledger, msg.from, Cost(msg.gasLimit - s.used, msg.gasPrice))
      ensures pool.gas == old(pool.gas) + msg.gasLimit - s.used
    {
      ledger, gasRemaining := out.ledger, out.gasLeft;
      s := SettleGas(out.refund, floor);
      ReturnGas();
    }
  }

  /** After settlement of a covered message the supply lacks the blob fee and the price of the
      used gas; crediting burn and tip leaves only fees nobody receives missing. */
  lemma SettledTotals(rules: Rules, ctx: Context, m: Message, l: Ledger, used: nat, total: nat)
    requires Covered(rules, ctx, m) && used <= m.gasLimit && total < U256
    requires Total(l) + Prepaid(rules, ctx, m) == total
    ensures var settled := Add(l, m.from, Cost(m.gasLimit - used, m.gasPrice));
            && Tip(rules, ctx, m, used) >= 0
            && Total(settled) + BlobFee(rules, ctx, m) + used * m.gasPrice == total
            && Total(Credit(rules, ctx, m, used, settled)) + BlobFee(rules, ctx, m)
               + LostBaseFee(rules, ctx, used) == total
  {
    Refunded(l, m.from, total, BlobFee(rules, ctx, m), m.gasLimit, used, m.gasPrice);
    FeesAddUp(rules, ctx, m, used);
    CreditTotal(rules, ctx, m, used, Add(l, m.from, Cost(m.gasLimit - used, m.gasPrice)));
  }

  /** From ledger `l`, which the EVM returned, the sender gets the unused gas back, which gives ledger
      `settled`; then, unless that is put off, burn address and coinbase receive their shares. */
  ghost predicate Distributed(rules: Rules, ctx: Context, m: Message, l: Ledger, used: nat, settled: Ledger,
                              feesPutOff: bool, l': Ledger) {
    && used <= m.gasLimit && Raised(l, settled, m.from, Cost(m.gasLimit - used, m.gasPrice))
    && if feesPutOff then l' == settled else FeesReceived(rules, ctx, m.gasPrice, used, settled, l')
  }

  /** The tip is not negative, and of the supply `total` only the blob fee, the price of the used gas
      and, once that is credited, a base fee nobody receives are missing. */
  ghost predicate Conserved(rules: Rules, ctx: Context, m: Message, used: nat, settled: Ledger, feesPutOff: bool,
                            l': Ledger, total: nat) {
    && Tip(rules, ctx, m, used) >= 0
    && Total(settled) + BlobFee(rules, ctx, m) + used * m.gasPrice == total
    && (!feesPutOff ==> Total(l') + BlobFee(rules, ctx, m) + LostBaseFee(rules, ctx, used) == total)
  }

  lemma SettledWell(rules: Rules, ctx: Context, m: Message, l: Ledger, used: nat, feesPutOff: bool, total: nat)
    requires Covered(rules, ctx, m) && used <= m.gasLimit && total < U256
    requires Total(l) + Prepaid(rules, ctx, m) == total
    ensures var settled := Add(l, m.from, Cost(m.gasLimit - used, m.gasPrice));
            var l' := if feesPutOff then settled else Credit(rules, ctx, m, used, settled);
            && Conserved(rules, ctx, m, used, settled, feesPutOff, l', total)
            && Distributed(rules, ctx, m, l, used, settled, feesPutOff, l')
  {
    SettledTotals(rules, ctx, m, l, used, total);
    SettledAccounts(rules, ctx, m, l, used, total);
  }

  /** Both at once: what every account has more in `l'` than in `l`. */
  ghost predicate PaidOut(rules: Rules, ctx: Context, m: Message, l: Ledger, used: nat, l': Ledger) {
    used <= m.gasLimit &&
    forall a: Address {:trigger Get(l', a)} ::
      Get(l', a) == Get(l, a) + (if a == m.from then Cost(m.gasLimit - used, m.gasPrice) else 0)
                    + FeeShare(rules, ctx, m.gasPrice, used, a)
  }

  lemma DistributedPaysOut(rules: Rules, ctx: Context, m: Message, l: Ledger, used: nat, settled: Ledger, l': Ledger)
    requires Distributed(rules, ctx, m, l, used, settled, true, settled)
    requires FeesReceived(rules, ctx, m.gasPrice, used, settled, l')
    ensures PaidOut(rules, ctx, m, l, used, l')
  {
    forall a: Address
      ensures Get(l', a) == Get(l, a) + (if a == m.from then Cost(m.gasLimit - used, m.gasPrice) else 0)
                            + FeeShare(rules, ctx, m.gasPrice, used, a)
    {
      assert Get(settled, a) == Get(l, a) + if a == m.from then Cost(m.gasLimit - used, m.gasPrice) else 0;
    }
  }

  /** Account by account: the sender gets the unused gas back, the burn address and the coinbase
      receive their shares. */
  lemma SettledAccounts(rules: Rules, ctx: Context, m: Message, l: Ledger, used: nat, total: nat)
    requires Covered(rules, ctx, m) && used <= m.gasLimit && total < U256
    requires Total(l) + Prepaid(rules, ctx, m) == total
    ensures var settled := Add(l, m.from, Cost(m.gasLimit - used, m.gasPrice));
            && Distributed(rules, ctx, m, l, used, settled, true, settled)
            && Distributed(rules, ctx, m, l, used, settled, false, Credit(rules, ctx, m, used, settled))
  {
    var settled := Add(l, m.from, Cost(m.gasLimit - used, m.gasPrice));
    Refunded(l, m.from, total, BlobFee(rules, ctx, m), m.gasLimit, used, m.gasPrice);
    CreditAccounts(rules, ctx, m, used, settled);
  }

  /** The limit pays the intrinsic gas and, where it applies, the data floor. */
  ghost predicate PaysData(rules: Rules, m: Message)
    requires |m.data| <= MAX64
  {
    var intrinsic := IntrinsicGas(PayloadOf(rules, m));
    && intrinsic.Some? && intrinsic.value <= m.gasLimit
    && (rules.prague ==> FloorDataGas(m.data).Some? && FloorDataGas(m.data).value <= m.gasLimit)
  }

  /** The ledger once gas is bought. */
  function AfterPurchase(rules: Rules, ctx: Context, m: Message, l: Ledger): (r: Ledger) {
    Sub(l, m.from, Prepaid(rules, ctx, m) % U256)
  }

  /** Exactly the messages that are applied. */
  ghost predicate Acceptable(rules: Rules, ctx: Context, m: Message, sender: Sender, l: Ledger, available: nat)
    requires |m.data| <= MAX64
  {
    && PreCheck(rules, ctx, m, sender).None?
    && RequiredBalance(rules, m) < U256 && RequiredBalance(rules, m) <= Get(l, m.from) && m.gasLimit <= available
    && PaysData(rules, m)
    && (m.value == 0 || m.value <= Get(AfterPurchase(rules, ctx, m, l), m.from))
    && (rules.shanghai && m.to.None? ==> |m.data| <= MAX_INIT_CODE_SIZE)
  }

  /** What an applied message gives, in terms of what the EVM returned for it. */
  ghost predicate Outcome(rules: Rules, m: Message, out: EvmResult, r: Result, settled: Ledger)
    requires |m.data| <= MAX64
  {
    && r.Applied? && r.failed == out.failed && out.gasLeft <= m.gasLimit && r.used <= m.gasLimit
    && LeastUse(r.used, m.gasLimit - out.gasLeft, out.refund, if rules.prague then FloorOf(m) else 0, rules.london)
    && settled == Add(out.ledger, m.from, Cost(m.gasLimit - r.used, m.gasPrice))
  }

  function FloorOf(m: Message): (n: nat)
    requires |m.data| <= MAX64
  {
    var f := FloorDataGas(m.data);
    if f.Some? then f.value else 0
  }

  function IntrinsicOf(rules: Rules, m: Message): (n: nat)
    requires |m.data| <= MAX64
  {
    var g := IntrinsicGas(PayloadOf(rules, m));
    if g.Some? then g.value else 0
  }

  /** The intrinsic gas is paid and the limit covers the floor. */
  ghost predicate Charged(rules: Rules, m: Message, gasRemaining: nat, floor: nat)
    requires |m.data| <= MAX64
  {
    var intrinsic := IntrinsicGas(PayloadOf(rules, m));
    && intrinsic.Some? && TX_GAS <= intrinsic.value && gasRemaining + intrinsic.value == m.gasLimit
    && floor <= m.gasLimit
    && (rules.prague ==> FloorDataGas(m.data) == Some(floor)) && (!rules.prague ==> floor == 0)
  }

  /** Used gas lies between the data floor and the limit and below the reported maximum, and is
      at least four fifths of the intrinsic gas (half before London), hence positive. */
  ghost predicate GasWithin(rules: Rules, m: Message, used: nat, maxUsed: nat)
    requires |m.data| <= MAX64
  {
    var intrinsic := IntrinsicGas(PayloadOf(rules, m));
    && 0 < used <= maxUsed <= m.gasLimit
    && (rules.prague ==> FloorDataGas(m.data).Some? && FloorDataGas(m.data).value <= used)
    && intrinsic.Some? && intrinsic.value <= maxUsed
    && (rules.london ==> 5 * used >= 4 * intrinsic.value)
    && 2 * used >= intrinsic.value
  }

  /** For a message that fits in memory the data floor is the plain EIP-7623 sum. */
  lemma SizedFloor(m: Message)
    requires Sized(m)
    ensures FloorDataGas(m.data) == Some(FloorCost(m.data)) && FloorOf(m) == FloorCost(m.data)
  {
    FloorDataGasExact(m.data);
  }

  /** For a message that fits in memory intrinsic gas is the plain sum, at least the base cost. */
  lemma SizedCost(rules: Rules, m: Message)
    requires Sized(m)
    ensures |m.data| <= MAX64
    ensures var p := PayloadOf(rules, m);
            IntrinsicGas(p) == Some(DataCost(p) + ListGas(p)) && IntrinsicGas(p).value >= TX_GAS
  {
    var p := PayloadOf(rules, m);
    IntrinsicGasExact(p);
    NonZeroBound(p);
    ListBound(p);
  }

  /** The intrinsic gas of a message that fits in memory, from the prices of its parts. */
  lemma IntrinsicPrices(rules: Rules, m: Message, entries: seq<nat>)
    requires Sized(m) && (m.accessList.Some? ==> m.accessList.value == CountEntries(entries))
    ensures var create := m.to.None?;
            IntrinsicOf(rules, m) ==
              (if create && rules.homestead then 53000 else 21000)
              + BytesCost(m.data, 4, if rules.istanbul then 16 else 68)
              + (if create && rules.shanghai then 2 * ToWordSize(|m.data|) else 0)
              + (if m.accessList.Some? then EntriesCost(entries) else 0)
              + (if m.auths.Some? then 25000 * m.auths.value else 0)
  {
    SizedCost(rules, m);
    Prices(PayloadOf(rules, m), entries);
  }

  lemma NonZeroBound(p: Payload)
    requires |p.data| < 0x100_0000_0000
    ensures NonZeroCost(p) <= 0x100_0000_0000 * 68
  {
    MulMonotone(|p.data| - Zeros(p.data), 0x100_0000_0000, NonZeroGas(p));
  }

  lemma ListBound(p: Payload)
    requires p.accessList.Some? ==>
               p.accessList.value.addresses < 0x100_0000_0000 && p.accessList.value.storageKeys < 0x100_0000_0000
    requires p.auths.Some? ==> p.auths.value < 0x100_0000_0000
    ensures ListGas(p) <= 0x100_0000_0000 * 29300
  {
  }

  /** The price of a message that passed the balance check is a 256-bit word. */
  lemma PriceFits(rules: Rules, m: Message)
    requires 0 < m.gasLimit && m.gasPrice <= m.feeCap && RequiredBalance(rules, m) < U256
    ensures m.gasPrice < U256
  {
    assert 1 * m.feeCap <= m.gasLimit * m.feeCap by { MulLe(m.feeCap, 1, m.gasLimit); }
  }

  lemma WrapTwice(a: nat, v: nat)
    ensures (a + v % U256) % U256 == (a + v) % U256
  {
    var q := v / U256;
    assert v == q * U256 + v % U256;
    ModShift(a + v % U256, q);
  }

  lemma {:induction false} ModShift(x: nat, q: nat)
    ensures (x + q * U256) % U256 == x % U256
  {
    if q > 0 {
      ModShift(x, q - 1);
      assert x + q * U256 == (x + (q - 1) * U256) + U256;
    }
  }

  /** After the unused gas is returned the supply lacks exactly the blob fee and the price of the
      used gas. */
  lemma Refunded(l: Ledger, a: Address, total: nat, blobFee: nat, limit: nat, used: nat, price: nat)
    requires used <= limit && total < U256
    requires Total(l) + limit * price + blobFee == total
    ensures Total(Add(l, a, Cost(limit - used, price))) + blobFee + used * price == total
    ensures Raised(l, Add(l, a, Cost(limit - used, price)), a, Cost(limit - used, price))
  {
    assert (limit - used) * price + used * price == limit * price;
    AddTotal(l, a, (limit - used) * price);
  }
}
