/** Intrinsic gas and the data floor (core/state_transition.go), over 64-bit words. */
module GasCosts {
  import opened Wrappers

  const MAX64: nat := 0xFFFF_FFFF_FFFF_FFFF
  const TX_GAS: nat := 21000
  const TX_GAS_CREATION: nat := 53000
  const TX_DATA_ZERO_GAS: nat := 4
  const TX_DATA_NON_ZERO_FRONTIER: nat := 68
  const TX_DATA_NON_ZERO_EIP2028: nat := 16
  const INIT_CODE_WORD_GAS: nat := 2
  const ACCESS_LIST_ADDRESS_GAS: nat := 2400
  const ACCESS_LIST_STORAGE_KEY_GAS: nat := 1900
  const CALL_NEW_ACCOUNT_GAS: nat := 25000
  const TOKEN_PER_NON_ZERO_BYTE: nat := 4
  const COST_FLOOR_PER_TOKEN: nat := 10

  type Byte = b: nat | b < 256

  datatype AccessList = AccessList(addresses: nat, storageKeys: nat)

  /** What intrinsic gas looks at in a message, and the fork switches that apply. */
  datatype Payload = Payload(data: seq<Byte>, accessList: Option<AccessList>, auths: Option<nat>, creation: bool,
                             homestead: bool, eip2028: bool, eip3860: bool)

  function Zeros(data: seq<Byte>): (z: nat)
    ensures z <= |data|
  {
    if data == [] then 0 else (if data[|data| - 1] == 0 then 1 else 0) + Zeros(data[..|data| - 1])
  }

  /** Rounds a byte size up to words without overflowing. */
  function ToWordSize(size: nat): (w: nat)
    requires size <= MAX64
    ensures size <= 32 * w < size + 32
  {
    if size > MAX64 - 31 then MAX64 / 32 + 1 else (size + 31) / 32
  }

  function NonZeroGas(p: Payload): (g: nat) {
    if p.eip2028 then TX_DATA_NON_ZERO_EIP2028 else TX_DATA_NON_ZERO_FRONTIER
  }

  function BaseGas(p: Payload): (g: nat) {
    if p.creation && p.homestead then TX_GAS_CREATION else TX_GAS
  }

  /** Adds count * price to gas, or fails if that exceeds 64 bits: the guard used for every part
      of the data cost. */
  function Charge(gas: nat, count: nat, price: nat): (r: Option<nat>)
    requires gas <= MAX64 && price > 0
    ensures r == if gas + count * price <= MAX64 then Some(gas + count * price) else None
  {
    GuardIsExact(gas, count, price);
    if (MAX64 - gas) / price < count then None else Some(gas + count * price)
  }

  /** The division guard is exact: it trips if and only if the sum would overflow. */
  lemma GuardIsExact(gas: nat, count: nat, price: nat)
    requires gas <= MAX64 && price > 0
    ensures (MAX64 - gas) / price < count <==> gas + count * price > MAX64
  {
    var q := (MAX64 - gas) / price;
    assert q * price <= MAX64 - gas < (q + 1) * price by {
      assert (MAX64 - gas) == price * q + (MAX64 - gas) % price;
    }
    if q < count {
      MulMonotone(q + 1, count, price);
    } else {
      MulMonotone(count, q, price);
    }
  }

  lemma MulMonotone(a: nat, b: nat, p: nat)
    requires a <= b
    ensures a * p <= b * p
  {
  }

  /** The gas for base and data; none on overflow. */
  function DataGas(p: Payload): (r: Option<nat>)
    requires |p.data| <= MAX64
  {
    var z := Zeros(p.data);
    if p.data == [] then Some(BaseGas(p))
    else match Charge(BaseGas(p), |p.data| - z, NonZeroGas(p))
         case None => None
         case Some(g) =>
           match Charge(g, z, TX_DATA_ZERO_GAS)
           case None => None
           case Some(g) =>
             if p.creation && p.eip3860 then Charge(g, ToWordSize(|p.data|), INIT_CODE_WORD_GAS) else Some(g)
  }

  /** The gas charged before execution; none on overflow of the data part. The access list and
      authorization parts are added without a check, modulo 2^64. */
  function IntrinsicGas(p: Payload): (r: Option<nat>)
    requires |p.data| <= MAX64
  {
    match DataGas(p)
    case None => None
    case Some(g) => Some((g + ListGas(p)) % (MAX64 + 1))
  }

  function ListGas(p: Payload): (g: nat) {
    (if p.accessList.Some? then p.accessList.value.addresses * ACCESS_LIST_ADDRESS_GAS
                                + p.accessList.value.storageKeys * ACCESS_LIST_STORAGE_KEY_GAS else 0)
    + (if p.auths.Some? then p.auths.value * CALL_NEW_ACCOUNT_GAS else 0)
  }

  /** The cost of base and data as a plain sum. */
  function DataCost(p: Payload): (g: nat)
    requires |p.data| <= MAX64
  {
    BaseGas(p) + NonZeroCost(p) + Zeros(p.data) * TX_DATA_ZERO_GAS
    + (if p.data != [] && p.creation && p.eip3860 then ToWordSize(|p.data|) * INIT_CODE_WORD_GAS else 0)
  }

  function NonZeroCost(p: Payload): (g: nat) { (|p.data| - Zeros(p.data)) * NonZeroGas(p) }

  lemma DataGasExact(p: Payload)
    requires |p.data| <= MAX64
    ensures DataGas(p) == if DataCost(p) <= MAX64 then Some(DataCost(p)) else None
  {
    if p.data != [] {
      var g := Charge(BaseGas(p), |p.data| - Zeros(p.data), NonZeroGas(p));
      assert g == if BaseGas(p) + NonZeroCost(p) <= MAX64 then Some(BaseGas(p) + NonZeroCost(p)) else None;
    }
  }

  lemma WrapExact(x: nat)
    ensures x % (MAX64 + 1) <= MAX64
    ensures x % (MAX64 + 1) == x <==> x <= MAX64
  {
  }

  /** Overflow is reported exactly when the data cost exceeds 64 bits, and the result is the
      plain sum exactly when the whole cost fits in 64 bits. */
  lemma IntrinsicGasExact(p: Payload)
    requires |p.data| <= MAX64
    ensures IntrinsicGas(p).None? <==> DataCost(p) > MAX64
    ensures IntrinsicGas(p).Some? ==> IntrinsicGas(p).value <= MAX64
    ensures IntrinsicGas(p).Some? ==> (IntrinsicGas(p).value == DataCost(p) + ListGas(p) <==>
              DataCost(p) + ListGas(p) <= MAX64)
  {
    DataGasExact(p);
    WrapExact(DataCost(p) + ListGas(p));
  }

  /** What the bytes cost, one by one. */
  function BytesCost(data: seq<Byte>, zero: nat, nonZero: nat): (g: nat) {
    if data == [] then 0
    else BytesCost(data[..|data| - 1], zero, nonZero) + if data[|data| - 1] == 0 then zero else nonZero
  }

  /** What the entries of an access list cost, one by one; each has a number of storage keys. */
  function EntriesCost(entries: seq<nat>): (g: nat) {
    if entries == [] then 0 else EntriesCost(entries[..|entries| - 1]) + 2400 + 1900 * entries[|entries| - 1]
  }

  /** The access list as it enters the cost: how many addresses and storage keys it has. */
  function CountEntries(entries: seq<nat>): (a: AccessList) {
    if entries == [] then AccessList(0, 0)
    else
      var a := CountEntries(entries[..|entries| - 1]);
      AccessList(a.addresses + 1, a.storageKeys + entries[|entries| - 1])
  }

  lemma {:induction false} BytesByKind(data: seq<Byte>, zero: nat, nonZero: nat)
    ensures BytesCost(data, zero, nonZero) == Zeros(data) * zero + (|data| - Zeros(data)) * nonZero
  {
    if data != [] {
      var init := data[..|data| - 1];
      BytesByKind(init, zero, nonZero);
      assert (Zeros(init) + 1) * zero == Zeros(init) * zero + zero;
      assert (|init| - Zeros(init) + 1) * nonZero == (|init| - Zeros(init)) * nonZero + nonZero;
    }
  }

  lemma {:induction false} EntriesByKind(entries: seq<nat>)
    ensures EntriesCost(entries) == 2400 * CountEntries(entries).addresses + 1900 * CountEntries(entries).storageKeys
  {
    if entries != [] {
      EntriesByKind(entries[..|entries| - 1]);
    }
  }

  /** The prices: 21000 for a transaction or 53000 for a creation, 4 for a zero byte and 16 (68 before
      EIP-2028) for another, 2 for a word of init code, 2400 for an address and 1900 for a storage key
      of the access list, 25000 for an authorization. */
  lemma Prices(p: Payload, entries: seq<nat>)
    requires |p.data| <= MAX64 && (p.accessList.Some? ==> p.accessList.value == CountEntries(entries))
    ensures DataCost(p) == (if p.creation && p.homestead then 53000 else 21000)
                           + BytesCost(p.data, 4, if p.eip2028 then 16 else 68)
                           + (if p.creation && p.eip3860 then 2 * ToWordSize(|p.data|) else 0)
    ensures ListGas(p) == (if p.accessList.Some? then EntriesCost(entries) else 0)
                          + (if p.auths.Some? then 25000 * p.auths.value else 0)
  {
    BytesByKind(p.data, 4, if p.eip2028 then 16 else 68);
    EntriesByKind(entries);
  }

  /** The floor: 10 for a zero byte and 40 for another. */
  lemma FloorPrices(data: seq<Byte>)
    ensures FloorCost(data) == 21000 + BytesCost(data, 10, 40)
  {
    BytesByKind(data, 10, 40);
  }

  function Tokens(data: seq<Byte>): (n: nat) { (|data| - Zeros(data)) * TOKEN_PER_NON_ZERO_BYTE + Zeros(data) }

  /** The least gas a data-heavy transaction pays (EIP-7623). The token count wraps at 64 bits. */
  function FloorDataGas(data: seq<Byte>): (r: Option<nat>) {
    Charge(TX_GAS, Tokens(data) % (MAX64 + 1), COST_FLOOR_PER_TOKEN)
  }

  /** The EIP-7623 floor as a plain sum. */
  function FloorCost(data: seq<Byte>): (g: nat) { TX_GAS + Tokens(data) * COST_FLOOR_PER_TOKEN }

  /** The floor is the plain sum, or an error if that exceeds 64 bits, if and only if the token
      count fits in 64 bits or its wrapped value costs too much as well. */
  lemma FloorDataGasExact(data: seq<Byte>)
    ensures FloorDataGas(data) == (if FloorCost(data) <= MAX64 then Some(FloorCost(data)) else None) <==>
              Tokens(data) <= MAX64 || TX_GAS + Tokens(data) % (MAX64 + 1) * COST_FLOOR_PER_TOKEN > MAX64
  {
    WrapExact(Tokens(data));
  }
}
