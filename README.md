# Lottery and NFT certificate contracts in Dafny

This project models two SmartPy contracts for Tezos and proves properties of them.

- **Lottery** (`contracts/Lottery.py`) runs one round at a time. `buy_ticket` sells one of `max_tickets` tickets at `ticket_cost` and refunds any overpayment. `end_game` can be called only by the `operator` and only once the round is sold out. It pays the whole contract balance to the buyer of ticket `random_number % max_tickets` and then opens a new round. `default` refuses every plain transfer.
- **NFT certificate** (`contracts/NFT_Certificate.py`) has a `mint` entry point that issues one certificate per sender address. It uses `last_token_id` as the new token id and records the token in `token_metadata`, `ledger` and `users_address`.

Each contract is modelled twice, and the two models are linked by proof:

- `LotterySpec` and `CertificateSpec` describe the contract as values. The storage is a datatype and every entry point is a transition function. Each function either fails with the contract's error or returns the new storage and the transfers (`sp.send`) it emits. The invariants, and what a whole sequence of calls preserves, are proved here.
- `LotteryContract.Lottery` and `CertificateContract.NFTCertificate` are classes whose fields are the contract's storage. Their methods update those fields in place, as the entry points do. Each method is proved to produce exactly the state and result of the matching transition function, and to keep the invariant.

`Tezos` holds what both contracts share:
- addresses, as an opaque type compared only for equality;
- amounts, as natural numbers of mutez;
- the `Transfer` operation;
- the error type.

`FailWith` carries the exact message of an `sp.verify` or `sp.failwith`. `KeyNotFound` and `DivisionByZero` stand for failures raised by the runtime. These are a lookup of a missing map key and a modulo by zero, both of which `end_game` could reach on a storage that breaks the invariant.

Each call runs against the state left by the previous one. A call either commits all its effects or fails and leaves the state unchanged.

The lottery also tracks the contract balance. Inside an entry point, `sp.balance` includes the amount sent with the call. The `balance` field holds the balance after the call's emitted transfers have been executed. On the chain level (`LotterySpec.Chain`), a failed call returns its amount to the sender.

The caller supplies the random number as a plain parameter.

Two details of the lottery code shape the model:
- The entry points return no value: their only effect besides the storage update is the list of transfers they emit.
- `end_game` pays out `sp.balance` (`contracts/Lottery.py:42`), which includes any amount sent with the `end_game` call itself. The model proves that, starting from origination, the balance before the call equals the price of the tickets sold.

## Model

| member | source | states |
|---|---|---|
| `LotterySpec.Initial` | contracts/Lottery.py:5-11 | The origination storage satisfies the invariant, has no players and has every ticket on sale. |
| `LotterySpec.BuyTicket` | contracts/Lottery.py:13-27 | With no tickets left the call fails with "NO TICKETS AVAILABLE". This check comes before the price check. Otherwise, underpaying fails with "INVALID AMOUNT". It succeeds exactly when neither check fails. On success the sender is stored under key `len(players)` and every other key is unchanged. `tickets_available` drops by exactly 1 and the configuration is unchanged. The call emits one refund of `amount - ticket_cost` to the sender if that is positive, and nothing otherwise. Refund plus price equals the amount paid. |
| `LotterySpec.EndGame` | contracts/Lottery.py:29-46 | Any sender other than the operator fails with "NOT_AUTHORISED", whatever the round state. The operator fails with "GAME IS YET TO END" while tickets remain. Under the invariant, the call succeeds exactly when the operator calls on a sold-out round. On success, `random_number % max_tickets` is a sold ticket, and its buyer gets one transfer of the whole balance (the balance before the call plus the amount sent). `players` is emptied, `tickets_available` is reset to `max_tickets` and the configuration is unchanged. |
| `LotterySpec.Default` | contracts/Lottery.py:48-50 | Always fails with "NOT ALLOWED". |
| `LotterySpec.EndGameTotal` | contracts/Lottery.py:38-39 | Under the invariant, a sold-out round settled by the operator never fails. The draw lands on the entrant at position `random_number % max_tickets`. |
| `LotterySpec.BuyTicketKeepsValid` | contracts/Lottery.py:17-23 | A successful purchase on a storage that satisfies the invariant stores the sender under a fresh key, so `players` grows by exactly one entry and the storage invariant still holds. |
| `LotterySpec.BuyTicketAppends` | contracts/Lottery.py:21-22 | A successful purchase keeps the invariant and appends the sender to the end of the entrants. Ticket order is therefore the order in which calls were accepted. |
| `LotterySpec.Apply` | contracts/Lottery.py:13-50 | A failed call leaves storage and balance unchanged. A successful call commits its storage. The balance it leaves plus the transfers it emitted equal the previous balance plus the amount sent. |
| `LotterySpec.Originate` | contracts/Lottery.py:4-11 | The contract after origination with a zero balance satisfies the chain invariant. |
| `LotterySpec.BuyTicketRetainsCost` | contracts/Lottery.py:24-27 | A successful purchase raises the contract balance by exactly `ticket_cost`. |
| `LotterySpec.EndGameEmptiesBalance` | contracts/Lottery.py:42 | A successful `end_game` leaves the contract balance at zero. |
| `LotterySpec.BuyTicketPreservesValid` | contracts/Lottery.py:13-27 | A `buy_ticket` call, failed or not, keeps the chain invariant: storage invariant plus a balance of `len(players) * ticket_cost`. |
| `LotterySpec.ApplyPreservesValid` | contracts/Lottery.py:17-46 | Every call of any entry point keeps two things true. First, the players map is keyed by exactly `0..len-1`, and `len(players) + tickets_available == max_tickets > 0`. Second, the balance equals `len(players) * ticket_cost`. No call changes the operator. |
| `LotterySpec.RunPreservesValid` | contracts/Lottery.py:13-50 | Any sequence of calls keeps the chain invariant. |
| `LotterySpec.RunKeepsConfig` | contracts/Lottery.py:7-10 | No sequence of calls changes `ticket_cost`, `max_tickets` or `operator`. |
| `LotterySpec.Reachable` | contracts/Lottery.py:6-9 | After any sequence of calls from origination, the invariant holds. When the round is sold out, the operator's `end_game` succeeds for every seed and pays out exactly `5 * 1` tez. |
| `LotteryContract.Lottery.constructor` | contracts/Lottery.py:4-11 | The object starts as the origination state, with balance 0, and satisfies the invariant. |
| `LotteryContract.Lottery.BuyTicket` | contracts/Lottery.py:13-27 | Errors are the same as in the transition function and leave the object unchanged. On success the method inserts the sender at `old len(players)`, decrements `tickets_available`, grows the balance by `ticket_cost` and returns the refund operation. The new storage fields and the result are exactly those of `LotterySpec.BuyTicket`. The invariant, including the balance, is kept. |
| `LotteryContract.Lottery.EndGame` | contracts/Lottery.py:29-46 | Errors are the same as in the transition function and leave the object unchanged. On success the method pays `players[random_number % max_tickets]` the whole balance plus the amount sent, and then empties `players`, resets `tickets_available` and zeroes the balance. The new storage fields and the result are exactly those of `LotterySpec.EndGame`, given the old balance. The invariant, including the balance, is kept. |
| `LotteryContract.Lottery.Default` | contracts/Lottery.py:48-50 | Always fails with "NOT ALLOWED" and changes nothing. |
| `LotteryContract.OpenRound` | contracts/Lottery.py:70-71 | In the test, alice and bob pay 1 and 2 tez and are refunded 0 and 1 tez. Bob holds ticket 1. |
| `LotteryContract.FillRound` | contracts/Lottery.py:72-73 | John then pays 3 tez and is refunded 2 tez, and charles pays exactly 1 tez and gets nothing back. One ticket is left and the contract holds 4 tez. |
| `LotteryContract.SellOut` | contracts/Lottery.py:74 | Mike pays exactly 1 tez and gets nothing back. The round is sold out with 5 tez in the contract. |
| `LotteryContract.TestScenario` | contracts/Lottery.py:52-81 | The whole test: a sixth purchase fails with "NO TICKETS AVAILABLE". `end_game(21)` by the admin draws `21 % 5 == 1` and pays bob the 5 tez pool. |
| `CertificateSpec.Mint` | contracts/NFT_Certificate.py:35-56 | A sender already in `users_address` fails with "User already minted Certificate". Any other sender succeeds. On success, the pre-call `last_token_id` becomes the new id and the counter rises by exactly 1. `ledger[id]` is the sender (not `_to`), `users_address[sender]` is `id`, and `token_metadata[id]` is a record with that `token_id` and token info `{'' : _metadata}`. Every other key of the three maps is untouched. |
| `CertificateSpec.MintIgnoresRecipient` | contracts/NFT_Certificate.py:36-54 | The result of `mint` does not depend on `_to`. |
| `CertificateSpec.Deployed` | contracts/NFT_Certificate.py:79-87 | Deployment with empty maps satisfies the invariant, whatever the starting counter. |
| `CertificateSpec.IdsUnique` | contracts/NFT_Certificate.py:53-56 | Under the invariant, every recorded id is below `last_token_id`, and distinct minters hold distinct ids. |
| `CertificateSpec.MintPreservesValid` | contracts/NFT_Certificate.py:38-56 | A successful mint keeps the invariant, and the id it issues was not yet in the ledger. The invariant says four things: `token_metadata` and `ledger` have the same keys; every id is below the counter and its metadata carries that id; `ledger[users_address[a]] == a`; and `users_address[ledger[id]] == id`. |
| `CertificateSpec.RunMintsValid` | contracts/NFT_Certificate.py:43-56 | Over any sequence of mints from a valid storage, the invariant holds at the end and the counter rises by one per successful mint. |
| `CertificateSpec.RunMintsRecords` | contracts/NFT_Certificate.py:38-56 | Over any sequence of mints, `users_address` gains exactly the successful minters, none of whom had minted before. |
| `CertificateSpec.MintAtMostOnce` | contracts/NFT_Certificate.py:38-41 | In any sequence of mints, no sender mints twice. |
| `CertificateSpec.SecondMintFails` | contracts/NFT_Certificate.py:113-118 | From deployment, a sender who has minted is refused on every later mint, whatever happened in between. |
| `CertificateContract.NFTCertificate.constructor` | contracts/NFT_Certificate.py:12-33 | The object holds the given initial maps and counter. With empty maps, as at deployment, it satisfies the invariant whatever the counter. |
| `CertificateContract.NFTCertificate.Mint` | contracts/NFT_Certificate.py:35-56 | A repeat minter fails and the object is unchanged. Otherwise the method writes the metadata, ledger and `users_address` entries for id `old last_token_id` and increments the counter. The result and new fields are exactly those of `CertificateSpec.Mint`, and the invariant is kept. |
| `CertificateContract.TestScenario` | contracts/NFT_Certificate.py:91-118 | In the test, from empty maps, alice's first mint succeeds and gives her token 0, and her second mint fails with "User already minted Certificate". |

## Left out

- The FA2 base classes of the certificate contract (`Admin`, `ChangeMetadata`, `OnchainviewBalanceOf`, `BurnNft`, `WithdrawMutez`, `Fa2Nft`) are not part of this model. Their code is fetched at run time and is not available. This leaves out every entry point besides `mint`, and every storage field that `mint` does not touch.
- The inherited `transfer` and burn entry points change owners in `ledger` or remove tokens, but never rewrite `users_address`. They therefore break the correspondence between `ledger` and `users_address` stated by `CertificateSpec.Valid`, which is proved only over sequences of mints. That `users_address` still refuses a second mint does not depend on it, since only `mint` writes that map.
- The starting `last_token_id` is set by `Fa2Nft`. The certificate constructor therefore takes it as a parameter, and the deployment invariant holds for any value.
- The mechanics of `sp.send` are not modelled. That includes the lookup of a unit-accepting contract at the destination, refusal of 0-tez transfers and failure of an emitted transfer. The model assumes that an emitted transfer is executed in full.
- Mutez are unbounded naturals, so the 64-bit mutez overflow checks of the Tezos runtime are not modelled. Amounts in the tests are far below that bound.
- The failure values that the compiled contract raises for a missing map key or a modulo by zero are not modelled. They appear as `KeyNotFound` and `DivisionByZero`, and neither can occur from the origination state.
- Randomness generation is not modelled: `random_number` is an input. How fair the draw is depends on the caller.
- Serialisation of calls by the Tezos runtime is not modelled. Calls are applied one after another, each atomically.
- Test accounts are opaque addresses, and the lottery test's `admin` is the operator. The metadata constants and compilation targets in `contracts/NFT_Certificate.py:58-89` are not modelled, apart from the empty initial maps.
