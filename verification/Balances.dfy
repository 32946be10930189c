/** Account balances as 256-bit words, and their sum. */
module Balances {
  type Address = nat
  type Ledger = map<Address, nat>

  /** 2 to the power 256. */
  const U256: nat := 0x1_0000000000000000_0000000000000000_0000000000000000_0000000000000000

  function Get(b: Ledger, a: Address): (v: nat) { if a in b then b[a] else 0 }

  /** Balance arithmetic wraps around like the 256-bit words it works on. */
  function Add(b: Ledger, a: Address, v: nat): (r: Ledger) { b[a := (Get(b, a) + v) % U256] }

  function Sub(b: Ledger, a: Address, v: nat): (r: Ledger) { b[a := (Get(b, a) - v) % U256] }

  ghost function Total(b: Ledger): (n: nat)
    decreases |b|
  {
    if b == map[] then 0
    else
      var a :| a in b;
      b[a] + Total(b - {a})
  }

  /** Any account can be taken out first. */
  lemma {:induction false} TotalRemove(b: Ledger, a: Address)
    requires a in b
    ensures Total(b) == b[a] + Total(b - {a})
    decreases |b|
  {
    var x :| x in b && Total(b) == b[x] + Total(b - {x});
    if x != a {
      TotalRemove(b - {x}, a);
      TotalRemove(b - {a}, x);
      assert b - {x} - {a} == b - {a} - {x};
    }
  }

  /** Setting one balance changes the sum by the difference. */
  lemma TotalSet(b: Ledger, a: Address, v: nat)
    ensures Total(b[a := v]) + Get(b, a) == Total(b) + v
  {
    TotalRemove(b[a := v], a);
    assert b[a := v] - {a} == b - {a};
    if a in b {
      TotalRemove(b, a);
    } else {
      assert b - {a} == b;
    }
  }

  lemma GetAtMostTotal(b: Ledger, a: Address)
    ensures Get(b, a) <= Total(b)
  {
    if a in b {
      TotalRemove(b, a);
    }
  }

  /** Crediting an account raises the sum by exactly the credit while the sum fits in a word. */
  lemma AddTotal(b: Ledger, a: Address, v: nat)
    requires Total(b) + v < U256
    ensures Add(b, a, v) == b[a := Get(b, a) + v] && Total(Add(b, a, v)) == Total(b) + v
  {
    GetAtMostTotal(b, a);
    TotalSet(b, a, Get(b, a) + v);
  }

  /** Debiting a covered amount lowers the sum by exactly the debit. */
  lemma SubTotal(b: Ledger, a: Address, v: nat)
    requires Total(b) < U256 && v <= Get(b, a)
    ensures Sub(b, a, v) == b[a := Get(b, a) - v] && Total(Sub(b, a, v)) == Total(b) - v
  {
    GetAtMostTotal(b, a);
    TotalSet(b, a, Get(b, a) - v);
  }

  /** Ledger `r` is `b` with `v` more for account `a` and no other change. */
  ghost predicate Raised(b: Ledger, r: Ledger, a: Address, v: nat) {
    forall x: Address {:trigger Get(r, x)} :: Get(r, x) == Get(b, x) + if x == a then v else 0
  }
}
