/** The parts of the Tezos execution context that both contracts use: opaque
    account addresses, amounts in mutez, the transfers an entry point emits and
    the ways an entry point fails. */
module Tezos {

  /** An implicit or originated account. Contracts only compare addresses. */
  type Address(==)

  /** Amounts are natural numbers of mutez; one tez is 10^6 mutez. */
  const MUTEZ_PER_TEZ: nat := 1_000_000

  /** `sp.send(destination, amount)`: a transfer emitted by an entry point and
      executed after it returns. */
  datatype Operation = Transfer(destination: Address, amount: nat)

  /** Why an entry point fails. `FailWith` carries the message of an
      `sp.verify` or `sp.failwith`; the other two are raised by the runtime
      itself (a map lookup of a missing key, a modulo by zero). */
  datatype Error = FailWith(message: string) | KeyNotFound | DivisionByZero

  /** A call either fails with no effect or commits its result. */
  datatype Result<T> = Ok(value: T) | Err(error: Error)

  /** The transaction that invokes an entry point: `sp.sender` and `sp.amount`. */
  datatype Call = Call(sender: Address, amount: nat)

  /** The mutez that a list of operations takes out of the contract. */
  function Total(ops: seq<Operation>): nat
  {
    if ops == [] then 0 else ops[0].amount + Total(ops[1..])
  }

  /** `m2` is `m` with key `k` bound to `v`: `k` is added or overwritten, every
      other key keeps its value. */
  ghost predicate UpdatedAt<K, V>(m2: map<K, V>, m: map<K, V>, k: K, v: V)
  {
    && m2.Keys == m.Keys + {k}
    && m2[k] == v
    && forall j :: j in m && j != k ==> m2[j] == m[j]
  }
}
