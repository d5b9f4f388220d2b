# Bank accounts and a shopping cart, modelled in Dafny

This project models two small in-memory object models and proves what their
operations promise.

**Bank** (`bank_management_system.py`). An `Account` has a name, an account
number, a variant (Savings or Current), a PIN fixed at construction, a
balance and an append-only transaction history. `deposit` and `withdraw` are
guarded updates: each either changes the balance and appends exactly one
history entry, or changes nothing. The `Bank` keeps a dictionary from account
number to account and a counter that starts at 1001. `create_account` checks
the PIN (exactly four digits), then the opening balance (at least 500). It then
draws an account number, and only after that checks the type choice (1 =
Savings, 2 = Current). So an invalid choice uses up a number but registers
nothing. `login` returns the account only when the number is registered and
the PIN matches. An unknown number and a wrong PIN give the same `None`.

**Shopping cart** (`shopping_cart_oops.py`). The stock table and the price
table are class-level, so every cart shares them. Here they are one
`Inventory` object that every cart references. `add_items` fails on an
unknown product, then on a quantity above the stock. On success it appends an
entry at the current price and lowers the shared stock. `total_cost` sums
quantity × price. `remove_item` walks the entry list by index. It deletes a
matching entry whose quantity is 1 and takes one unit off any other matching
entry. Stock is never restored. Two details of Python's list semantics are
kept exactly:
- Deleting during the walk shifts the next entry into the slot just
  examined, so that entry is skipped (`CartSpec.EntryAfterRemovalIsSkipped`).
- `list.remove(item)` deletes the first entry *equal* to `item`, which can be
  an earlier, already-decremented entry (`CartSpec.RemoveTakesEarlierEqualEntry`).

Layout:
- `wrappers.dfy`: the Option, Result and Outcome types.
- `account_ledger.dfy`: balance and history as values. It defines one guarded
  update (`Apply`), any session of such updates (`Run`), and lemmas about them.
- `account_registry.dfy`: the `create_account` checks and what they do to the
  counter and the registry (`Verdict`, `Step`, `Replay`, `Issued`), with lemmas.
- `bank.dfy`: the classes `Account` and `Bank`. Their methods are tied to the
  value-level functions above.
- `cart_spec.dfy`: cart entries, `Cost`, `list.remove` (`RemoveFirst`), the
  `remove_item` pass (`Sweep`), and lemmas.
- `shop.dfy`: the classes `Inventory` and `ShoppingCart`.

Modelling choices:
- Balances are `real`, so they are exact. Quantities and prices are `int`.
- Console input is replaced by already-parsed arguments.
- The printed success or failure line of `deposit` and `withdraw` becomes a
  returned `ok` flag.
- `create_account` returns the new account or the reason it failed. In the
  source it returns nothing and prints the reason.
- A raised cart exception becomes a `Fail` outcome with nothing changed.
- `add_items` accepts a zero or negative quantity, as the code does. Only
  `quantity > stock` is refused. A negative quantity raises the stock; zero
  leaves it unchanged. Stock still never goes negative.

## Model

| member | source | states |
|---|---|---|
| `BankSystem.Account.constructor` | bank_management_system.py:7-12 | the new account holds the given name, number, PIN, balance and variant, and its history is empty |
| `BankSystem.Account.VerifyPin` | bank_management_system.py:15-16 | true exactly when the candidate equals the PIN fixed at construction (`pin` is a constant field, so nothing can change it) |
| `BankSystem.Account.GetBalance` | bank_management_system.py:18-19 | a pure read of the balance. The result is non-negative on a valid account |
| `BankSystem.Account.Deposit` | bank_management_system.py:21-28 | accepted iff amount > 0. If accepted, the balance rises by amount and exactly one `Deposit(amount)` entry is appended. Otherwise balance and history are unchanged. The new state is `Apply` of the old one, and a non-negative balance stays non-negative |
| `BankSystem.Account.Withdraw` | bank_management_system.py:30-37 | accepted iff 0 < amount <= balance. If accepted, the balance drops by amount and exactly one `Withdraw(amount)` entry is appended. Otherwise nothing changes. A non-negative balance stays non-negative |
| `AccountLedger.Apply` | bank_management_system.py:21-37 | one deposit or withdraw on balance and history: the old history stays a prefix and at most one entry is added, the new balance is the old one plus the signed amount of the entry added, and a non-negative balance stays non-negative |
| `AccountLedger.ApplyChangesIffAccepted` | bank_management_system.py:21-37 | a deposit or withdraw changes the ledger exactly when its guard holds. In that case it adds exactly one history entry, and otherwise none |
| `AccountLedger.WithdrawRule` | bank_management_system.py:32-34 | a withdrawal changes the account iff 0 < amount <= balance. It then leaves balance - amount and appends `Withdraw(amount)` |
| `AccountLedger.RunNeverNegative` | bank_management_system.py:21-37 | starting from a non-negative balance, no sequence of deposits and withdrawals makes the balance negative |
| `AccountLedger.RunAppendOnly` | bank_management_system.py:21-37 | over any session the old history is a prefix of the new one, with at most one entry added per call |
| `AccountLedger.RunBalanceIsNet` | bank_management_system.py:21-37 | after any session, the balance is the opening balance plus the signed amounts of the entries that session appended |
| `AccountLedger.DepositThenWithdraw` | bank_management_system.py:21-37 | deposit d then withdraw w <= balance + d leaves balance + d - w and appends exactly two entries, Deposit(d) then Withdraw(w) |
| `BankSystem.Bank.constructor` | bank_management_system.py:79-82 | a new bank has no accounts and its counter is 1001 |
| `BankSystem.Bank.GenerateAccNo` | bank_management_system.py:84-88 | returns the current counter and advances it by exactly one. The number returned is not yet registered |
| `AccountRegistry.IsFourDigitPin` | bank_management_system.py:98 | the PIN passes exactly when it has length 4 and every character in it is one of '0'..'9' |
| `AccountRegistry.KindOfChoice` | bank_management_system.py:115-123 | a choice yields an account kind exactly when it is 1 or 2, and Savings exactly when it is 1 |
| `AccountRegistry.Verdict` | bank_management_system.py:98-123 | the checks run in the source's order: PIN, then balance, then type. Each error is returned exactly when the earlier checks pass and its own fails. Choice 1 gives Savings and 2 gives Current. A number is drawn iff the first two checks pass |
| `AccountRegistry.Step` | bank_management_system.py:98-125 | one opening advances the counter by one exactly when a number is drawn, registers at most the drawn number and removes none, keeps the registry invariant, and registers the drawn number exactly when all checks pass |
| `AccountRegistry.StepEffect` | bank_management_system.py:98-125 | a PIN or balance failure changes nothing. An invalid type only advances the counter. A success advances it and registers the drawn number |
| `BankSystem.Bank.CreateAccount` | bank_management_system.py:90-125 | on a PIN or balance failure there is no draw and no new account. On an invalid type the counter advances and the registry is unchanged. On success a fresh account of the chosen kind is stored under the number drawn, with the given name, PIN and balance and an empty history. The registry invariant is kept |
| `AccountRegistry.ReplayCounter` | bank_management_system.py:84-88 | over any series of openings, the counter advances once per number drawn. Every registered number stays between 1001 and the counter |
| `AccountRegistry.IssuedInDrawnRange` | bank_management_system.py:84-88 | the counter never goes down, and every number a series of openings registers lies between the counter before the series and the counter after it |
| `AccountRegistry.IssuedIncreasing` | bank_management_system.py:84-88 | the numbers a series of openings registers are strictly increasing, so no number is handed out twice |
| `AccountRegistry.ReplayRegistersIssued` | bank_management_system.py:113-125 | the registry grows by exactly the numbers under which the series registered an account |
| `AccountRegistry.IssuedNumbersFresh` | bank_management_system.py:84-88 | the numbers a series of openings registers are strictly increasing. They were drawn during the series and were never registered before, and the registry grows by exactly those numbers |
| `AccountRegistry.FirstTwoAccounts` | bank_management_system.py:82 | a fresh bank gives its first two accounts 1001 and 1002, whatever their kind |
| `AccountRegistry.InvalidTypeConsumesNumber` | bank_management_system.py:113-123 | an opening rejected for its type uses up 1001, so the next successful opening gets 1002 |
| `AccountRegistry.EarlyRejectionDrawsNothing` | bank_management_system.py:98-106 | an opening rejected for its PIN or balance draws no number, so the next successful opening still gets 1001 |
| `BankSystem.Bank.Login` | bank_management_system.py:135-143 | returns the account iff the number is registered and its PIN equals the one given. Otherwise it returns None, the same for an unknown number and a wrong PIN. It modifies nothing |
| `Shop.Inventory.constructor` | shopping_cart_oops.py:2-3 | the shared tables start with the source's stock and prices. Stock is non-negative and every product has a price |
| `Shop.ShoppingCart.constructor` | shopping_cart_oops.py:5-6 | a new cart has no entries and refers to the shared tables |
| `Shop.ShoppingCart.AddItems` | shopping_cart_oops.py:8-16 | an unknown name fails and changes nothing. A quantity above the stock fails and changes nothing. Otherwise it appends one entry (name, quantity, current price) and lowers that product's stock by quantity. The other products' stock, the prices and the earlier entries are unchanged, stock stays non-negative, and the cost rises by quantity × price |
| `Shop.AddSeenByOtherCart` | shopping_cart_oops.py:2 | a successful add through one cart lowers the stock that another cart over the same tables sees, and leaves that cart's entries alone |
| `Shop.ShoppingCart.TotalCost` | shopping_cart_oops.py:26-30 | the result is the sum of quantity × price over the entries, which is 0 for an empty cart |
| `CartSpec.CostAppend` | shopping_cart_oops.py:26-30 | the cost of two lists of entries placed one after the other is the sum of their costs |
| `CartSpec.RemoveFirst` | shopping_cart_oops.py:22 | `list.remove` yields a list one shorter whose entries are those of the input less one copy of the removed item |
| `CartSpec.FirstIndex` | shopping_cart_oops.py:22 | `list.remove` deletes the first entry equal to the item. No earlier entry equals it |
| `Shop.ShoppingCart.RemoveItem` | shopping_cart_oops.py:18-24 | the entries become the index-based pass `Sweep` over the old ones. The result is `Shrunk` from the old entries: in order, each old entry is kept, or (if it matches) kept with one unit off, or (if it matches and has quantity 1, or 2 when it was first decremented) dropped; nothing is duplicated. Entries with other names are kept, in order. A name that matches no entry changes nothing. The stock is untouched |
| `CartSpec.Sweep` | shopping_cart_oops.py:19-24 | the `remove_item` pass from a given index: its result is never longer than its input |
| `CartSpec.SweepNoMatch` | shopping_cart_oops.py:18-20 | a pass over a list with no entry of that name returns the list unchanged |
| `CartSpec.SweepKeepsOthers` | shopping_cart_oops.py:18-24 | a pass keeps every entry with another name, in its order |
| `CartSpec.SweepShrinks` | shopping_cart_oops.py:19-24 | when the entries before the pass index are a `Shrunk` copy of a prefix of the input and the rest are the input's own tail, the rest of the pass yields a `Shrunk` copy of the whole input, whether `list.remove` strikes the current entry or an earlier equal one |
| `CartSpec.RemovePassEffect` | shopping_cart_oops.py:18-24 | the whole `remove_item` pass keeps the other entries in order, never lengthens the list, yields a `Shrunk` copy of the input, and changes nothing when no entry matches |
| `CartSpec.ShrunkExcludes` | shopping_cart_oops.py:21-24 | the relation is tight: no pass deletes an ipad entry of quantity 5, and none turns [ipad×3, ipad×5] into [ipad×3, ipad×3] |
| `CartSpec.EntryAfterRemovalIsSkipped` | shopping_cart_oops.py:19-22 | for [ipad×1, ipad×2], removing the first entry shifts the second into the examined slot. It is skipped, and the result is [ipad×2] |
| `CartSpec.RemoveTakesEarlierEqualEntry` | shopping_cart_oops.py:21-22 | for [iphone×2, imac×1, iphone×1], the first iphone is decremented to equal the last one. `list.remove` then deletes the earlier one, and the result is [imac×1, iphone×1] |

## Left out

- `calculate_interest` in both variants (bank_management_system.py:48-73). It only prints `balance * 0.04` as a float, or a message, and changes no state. The variant survives as `Account.kind`.
- `display` and `show_history` (bank_management_system.py:39-57): they only print.
- The menu loops and top-level script lines (bank_management_system.py:146-212; shopping_cart_oops.py:33-37). They are console I/O. The sharing they show between `c1` and `c2` is stated by `Shop.AddSeenByOtherCart`.
- Console input and its parsing (`input`, `float(...)`, `int(...)` and their crashes on bad text). The operations take parsed arguments instead.
- Python floats: balances are exact `real`s, so rounding is not modelled.
- The text of history entries (`f"+{amount} Deposit"`) is a tagged `Deposit(amount)` / `Withdraw(amount)` value. The text of printed messages and exception messages is not modelled.
- `str.isdigit` accepts other Unicode digits. The PIN check here accepts only '0'..'9'.
- `BankSystem.Account.GetBalance` promises non-negativity only on a valid account. The source's `Account` constructor accepts any balance. Only `create_account`, which requires at least 500, ever calls it.
- `BankSystem.Bank.GenerateAccNo` and `BankSystem.Bank.CreateAccount` take the registry invariant as a precondition. Every bank satisfies it from construction on.
- `Shop.ShoppingCart.AddItems` requires the shared tables to be valid: every stocked product has a price and no stock is negative. The source's tables satisfy this from the start, and every operation keeps it.
