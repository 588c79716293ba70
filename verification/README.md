# Fund rebalancing planner and recipe filters, modelled in Dafny

This project models two TypeScript modules as pure Dafny functions and proves properties about them.

**Fund-rebalancing planner** (`question-3-building-a-transaction/index.ts`). Closing accounts hold surplus funds. Recipient accounts are owed credit. `newRebalancingTx` works as follows:
- It checks that the total surplus covers the total credit.
- It drains the closing accounts in order through the greedy waterfall allocator `createTransfers`. The allocator pays recipients strictly in list order. A recipient is paid in full only when the surplus is *strictly* greater than its credit.
- Once no recipient is left, each closing account's leftover surplus becomes a `null`-destination entry and is added to a fee pool.
- It charges a fee of 10 per entry and fails if the pool cannot cover it.
- `minorFee` takes the fee off the entries from the last one backwards, then drops every zero-amount entry.

**Recipe filters** (`question-2-data-model/index.ts`). An ingredient carries food types and allergens. The `Recipe` constructor collects both into sets. Alongside the constructor there are membership queries, three removal filters, ingredient doubling and a calorie sum.

Modules:
- `Results`: `Option` and `Result`.
- `Sequences`: a front-to-back `Sum`. The no-seed `reduce` becomes `ReduceAdd`, which fails on an empty array. `Array.prototype.filter` becomes `Filter`.
- `Accounts`: the records, the ledger sums, and the two aggregators.
- `Waterfall`: `createTransfers`.
- `FeeReducer`: `minorFee`.
- `Rebalance`: `newRebalancingTx` and the end-to-end theorems.
- `RebalanceExamples`: worked inputs.
- `Recipes`: the recipe module.

A transfer `[from, to, amount]` is `Transfer(from, to, amount)`, with `to: Option<string>`; `None` is the source's `null`. Thrown errors become `Failure` values:
- `EmptyReduce` is the TypeError of `reduce` on an empty account list.
- `NotEnoughFunds` is the throw at line 130.
- `FeeExceedsPool` is the throw at line 161. The source uses the same message for both throws.

Three behaviours of the code worth knowing:
- **Equal totals.** For one closing account of 100 against one recipient owed 100, the `difference > 0` test fails at equality. The recipient stays at the head with credit 0, no leftover entry is emitted, and the fee check fails. `EqualTotalsFail` proves that equal totals always fail.
- **The `while (true)` loop.** Its body always exits after one pass: `CreateTransfers` ensures `|remaining| == 0 || closing.amount == 0`. `Settle` therefore writes the third outcome, going round again, as `assert false`.
- **Empty account lists.** `reduce` without a seed throws on them; this is modelled as `EmptyReduce`.

## Model

| member | source | states |
|---|---|---|
| Sequences.ReduceAdd | question-3-building-a-transaction/index.ts:87-91 | the seedless left fold of `+` fails exactly on an empty array and otherwise equals the sum |
| Accounts.CalculateTotalCredit | question-3-building-a-transaction/index.ts:84-93 | fails exactly on an empty recipient list; otherwise returns the sum of all credits |
| Accounts.CalculateTotalAmount | question-3-building-a-transaction/index.ts:99-108 | fails exactly on an empty closing-account list; otherwise returns the sum of all amounts |
| Waterfall.Walk | question-3-building-a-transaction/index.ts:50-77 | at most one transfer per recipient, in recipient order, each from the closing account to that recipient |
| Waterfall.WalkConserves | question-3-building-a-transaction/index.ts:52-77 | closing amount returned + amounts emitted = input amount; credit still owed + amounts paid = input credit, in total and per recipient account id |
| Waterfall.WalkShape | question-3-building-a-transaction/index.ts:55-77 | the result has exactly one of two shapes: everyone paid in full with the leftover kept, or run out at the first recipient whose credit is at least the running surplus |
| Waterfall.CreateTransfers | question-3-building-a-transaction/index.ts:43-78 | Everyone paid: each recipient's surplus was strictly above its credit, it was paid that credit, nobody remains, and the closing account keeps amount − total credit. Ran out at recipient i: earlier recipients as above; i receives the running surplus, which is ≤ its credit; the closing amount is 0; the remaining list is i with its credit reduced, then the untouched tail. Always: the loop-exit condition holds, and funds and credit are conserved |
| Waterfall.AllPaidIffSurplusExceedsCredit | question-3-building-a-transaction/index.ts:52-58 | the returned remaining list is empty iff there were no recipients or the surplus strictly exceeds their total credit |
| FeeReducer.Charge | question-3-building-a-transaction/index.ts:19-33 | the backward pass changes only amounts (never `from`/`to`) and leaves every entry it has not yet visited untouched |
| FeeReducer.ChargeAgrees | question-3-building-a-transaction/index.ts:19-33 | after the pass, each visited entry holds its amount clamped to [0, (sum of the entries from it onward) − fee]. Entries past the stopping point drop to 0, the stopping entry loses what is left of the fee, and earlier entries keep their amounts |
| FeeReducer.ChargeCollects | question-3-building-a-transaction/index.ts:19-33 | the pass removes min(fee, total) from the entries' total |
| FeeReducer.MinorFee | question-3-building-a-transaction/index.ts:15-36 | the result is the closed-form charged list with every zero-amount entry dropped, in order. Every kept amount is > 0, and the total falls by min(fee, total), so by exactly the fee when the fee ≤ total |
| FeeReducer.FeeSparesPrefix | question-3-building-a-transaction/index.ts:20-32 | when the entries from k on can cover the fee, every entry before k comes through unchanged |
| FeeReducer.DropZero | question-3-building-a-transaction/index.ts:35 | every kept entry has a non-zero amount and comes from the input; every non-zero entry of the input is kept |
| FeeReducer.FeeChargedKeepsRoutes | question-3-building-a-transaction/index.ts:24-28 | the fee changes amounts only; every entry keeps its source and destination |
| FeeReducer.DropZeroKeepsSums | question-3-building-a-transaction/index.ts:35 | dropping zero-amount entries keeps the total and the total per destination |
| Rebalance.Settle | question-3-building-a-transaction/index.ts:135-155 | One closing account's turn. The `(id, null, leftover)` entry is appended, the pool grows by the leftover and the remaining list becomes empty iff the allocator left nobody owed. Otherwise the allocator's transfers are appended and its remaining recipients taken over, with the pool unchanged. With nobody owed beforehand, the account's whole amount becomes one leftover entry. Earlier entries are never changed, and the pool never shrinks |
| Rebalance.SettleAll | question-3-building-a-transaction/index.ts:133-156 | the loop over closing accounts only appends entries and never shrinks the pool; once nobody is owed, nobody is owed again |
| Rebalance.Planned | question-3-building-a-transaction/index.ts:125-156 | the pre-fee plan: its transfers total the closing accounts' total, its pool is exactly the total of its `null`-destination entries, and it has at least one entry per closing account |
| Rebalance.NewRebalancingTx | question-3-building-a-transaction/index.ts:118-168 | EmptyReduce iff either list is empty. NotEnoughFunds iff both lists are non-empty and total amount < total credit; that failure comes before any allocation. FeeExceedsPool iff both lists are non-empty, the totals suffice, and 10 × the pre-fee entry count exceeds the pool. So the call succeeds exactly when the fee ≤ the pool. On success the fee is 10 × the pre-fee entry count, leftover and zero-amount entries included, the transfers are `minorFee` of that fee over the plan, and every amount is > 0 |
| Rebalance.SettleKeepsBooks | question-3-building-a-transaction/index.ts:135-155 | One closing account's turn preserves the bookkeeping: paid + still owed = originally owed, in total and per account; the pool equals the leftover entries; leftover entries come after all payments, and there are none while a recipient is owed. The account's whole amount moves into the transfer list, and at least one entry is emitted |
| Rebalance.PayingKeepsBooks | question-3-building-a-transaction/index.ts:136-142 | appending one allocator call's transfers and taking over its remaining recipients preserves the bookkeeping; with nobody left to pay, the call emits nothing |
| Rebalance.BookingLeftoverKeepsBooks | question-3-building-a-transaction/index.ts:143-150 | appending the `(id, null, leftover)` entry and adding the leftover to the pool preserves the bookkeeping |
| Rebalance.SettleAllKeepsBooks | question-3-building-a-transaction/index.ts:133-156 | the loop over closing accounts preserves the bookkeeping, adds every closing amount to the transfer total, and emits at least one entry per closing account |
| Rebalance.PlannedBooks | question-3-building-a-transaction/index.ts:125-156 | the pre-fee plan keeps the bookkeeping, its transfers total the closing accounts' total, and it has at least as many entries as closing accounts |
| Rebalance.FeeSparesPayments | question-3-building-a-transaction/index.ts:19-35 | with leftover entries last and the fee ≤ their total, every payment entry comes through the fee pass unchanged, so each recipient is paid exactly as before |
| Rebalance.ChargedPaysAsBefore | question-3-building-a-transaction/index.ts:19-33 | with leftover entries last and the fee ≤ their total, the fee pass leaves every payment as it was and pays each recipient id what it was paid before |
| Rebalance.PoolIsSurplus | question-3-building-a-transaction/index.ts:124-156 | when total credit ≤ total amount, the pool equals total amount − total credit |
| Rebalance.OwedMeansEmptyPool | question-3-building-a-transaction/index.ts:143-154 | while some recipient is still owed after the loop, no leftover was booked and the pool is 0 |
| Rebalance.SuccessSettlesEveryone | question-3-building-a-transaction/index.ts:143-162 | a successful run leaves no recipient owed |
| Rebalance.Conservation | question-3-building-a-transaction/index.ts:122-167 | on success, output amounts + fee = the closing accounts' total amount |
| Rebalance.FullSettlement | question-3-building-a-transaction/index.ts:133-167 | on success, each recipient account id receives exactly the credit it was owed |
| Rebalance.FeeTouchesOnlyLeftovers | question-3-building-a-transaction/index.ts:159-163 | on success, the fee pass leaves every payment entry of the plan unchanged, so the fee comes from null-destination entries only |
| Rebalance.EqualTotalsFail | question-3-building-a-transaction/index.ts:122-162 | non-empty lists whose totals are equal always fail at the fee check |
| RebalanceExamples.SourcePlan | question-3-building-a-transaction/index.ts:170-178 | for the source's demo input, the pre-fee plan is [(acc1,rec1,400),(acc1,null,100),(acc2,null,500)] with pool 600 |
| RebalanceExamples.SourceExample | question-3-building-a-transaction/index.ts:170-178 | the demo call yields [(acc1,rec1,400),(acc1,null,100),(acc2,null,470)] with fee 30 |
| RebalanceExamples.ZeroCreditPlan | question-3-building-a-transaction/index.ts:55-67 | surplus equal to credit leaves the recipient at the head with credit 0, and the next closing account sends it a 0-amount transfer |
| RebalanceExamples.ZeroCreditHeadExample | question-3-building-a-transaction/index.ts:159-163 | that 0-amount transfer counts toward the fee (30 for three entries) and is dropped from the output |
| RebalanceExamples.NotEnoughFundsExample | question-3-building-a-transaction/index.ts:128-130 | 100 available against 150 owed fails with NotEnoughFunds |
| Recipes.TagsOf | question-2-data-model/index.ts:35-37 | the union the constructor builds: a tag is in it iff some list carries it |
| Recipes.FoodTypesOf | question-2-data-model/index.ts:35-36 | a food type is in the set iff some ingredient carries it |
| Recipes.AllergensOf | question-2-data-model/index.ts:35-37 | an allergen is in the set iff some ingredient carries it |
| Recipes.NewRecipe | question-2-data-model/index.ts:32-39 | keeps name and ingredients; the recipe's food types and allergens are exactly the unions of its ingredients' |
| Recipes.ScanFoodTypes | question-2-data-model/index.ts:53-58 | from index i, true iff some k < ingredient count with k < query length has query[k] among the recipe's food types |
| Recipes.HasFoodTypes | question-2-data-model/index.ts:48-60 | true iff some index below both the ingredient count and the query length holds a food type of the recipe |
| Recipes.ScanAny | question-2-data-model/index.ts:72-77 | the `hasAllergens` loop from index i: true iff some query entry at position ≥ i is among the recipe's tags |
| Recipes.HasAllergens | question-2-data-model/index.ts:68-78 | true iff some listed allergen is among the recipe's |
| Recipes.RemoveAllergens | question-2-data-model/index.ts:86-100 | The result keeps the name and is a freshly constructed recipe. It holds every ingredient of the original that carries no listed allergen, and only those. `hasAllergens` of the result with the same list is false |
| Recipes.RemoveFoodTypes | question-2-data-model/index.ts:108-122 | The result keeps the name and is a freshly constructed recipe. It holds every ingredient of the original that carries no listed food type, and only those. No listed food type is left in the result |
| Recipes.RemoveIngredients | question-2-data-model/index.ts:130-141 | The result keeps the name and is a freshly constructed recipe. It holds every ingredient whose name matches no argument ingredient's name, and only those |
| Sequences.FilterConcat | question-2-data-model/index.ts:90-98 | filtering a concatenation concatenates the filters, so kept elements keep their order |
| Sequences.FilterOne | question-2-data-model/index.ts:90-98 | a single element is kept exactly once when it passes and dropped otherwise; with `FilterConcat` this fixes every filter, multiplicities included |
| Recipes.RemovalsKeepOrder | question-2-data-model/index.ts:90-98 | each removal applied to a concatenation is the concatenation of the removals, so kept ingredients stay in order |
| Recipes.RemoveAllergensOfOne | question-2-data-model/index.ts:90-98 | a lone ingredient is kept exactly once when it carries no listed allergen and dropped otherwise; with `RemovalsKeepOrder` this fixes the kept list |
| Recipes.RemoveFoodTypesOfOne | question-2-data-model/index.ts:112-120 | a lone ingredient is kept exactly once when it carries no listed food type and dropped otherwise |
| Recipes.RemoveIngredientsOfOne | question-2-data-model/index.ts:134-139 | a lone ingredient is kept exactly once when no argument ingredient has its name and dropped otherwise |
| Recipes.RemoveAllergensIdempotent | question-2-data-model/index.ts:86-100 | removing the same allergens twice equals removing them once |
| Recipes.RemoveFoodTypesIdempotent | question-2-data-model/index.ts:108-122 | removing the same food types twice equals removing them once |
| Recipes.DoubleListed | question-2-data-model/index.ts:156-170 | each ingredient whose name is listed is doubled and every other one kept, in order; the recipe's food-type and allergen sets are unchanged |
| Recipes.DoubleIngredients | question-2-data-model/index.ts:149-170 | Every ingredient's unit and calorie are doubled, whatever the argument. Name, food types, allergens, count and order are unchanged, and so are the recipe's food-type and allergen sets |
| Recipes.GetCalories | question-2-data-model/index.ts:177-181 | fails exactly on a recipe without ingredients; otherwise returns the sum of ingredient calories |
| Recipes.DoublingDoublesCalories | question-2-data-model/index.ts:149-181 | doubling the ingredients doubles the recipe's calorie total |
| Recipes.HasAnyFoodType | question-2-data-model/index.ts:48-60 | the corrected query: true iff some queried food type, at any position, is among the recipe's |
| Recipes.HasFoodTypesMissesLaterQuery | question-2-data-model/index.ts:53-54 | for a one-ingredient meat recipe queried for [VEGETABLE, MEAT], `hasFoodTypes` answers false while the corrected query answers true |
| Recipes.DoubleNamedIngredients | question-2-data-model/index.ts:149-170 | the corrected doubling: exactly the ingredients named in the argument are doubled, and all others are unchanged |
| Recipes.DoubleIngredientsIgnoresArgument | question-2-data-model/index.ts:153-157 | asking to double only the ham of a ham-and-cheese recipe also doubles the cheese (160 calories), which the corrected version leaves at 80 |

## Left out

- The `console.log` demo call at question-3-building-a-transaction/index.ts:170-178 is I/O. Its input and output are kept as `RebalanceExamples.SourceExample`.
- In-place mutation and aliasing are not modelled: the caller's `closingAccounts` entries are overwritten (line 140) and `minorFee` mutates the transfer tuples (lines 25 and 27). The model returns new values; the computed results are the same.
- JavaScript `number` semantics are not modelled. Amounts and credits are `nat`, and units and calories are `int`. Floating point, precision loss and negative amounts are out of scope.
- Exception objects and messages are not modelled. The two fund failures are told apart as `NotEnoughFunds` and `FeeExceedsPool`, although the source throws the same message for both.
- The iteration order of `Set` and `Array.from` is not modelled. Recipe food types and allergens are Dafny sets, and the queries only test membership in them.

## Findings

| source | as written | input that shows it | evidently intended | confidence | as-written member | corrected member |
|---|---|---|---|---|---|---|
| question-2-data-model/index.ts:53-54 | the loop runs up to the recipe's ingredient count and reads the query at that index (`undefined` past its end) | a recipe with one MEAT ingredient, queried for [VEGETABLE, MEAT], answers false | true iff any queried food type is in the recipe, as the comment on line 55 says | high; not executed | Recipes.HasFoodTypesMissesLaterQuery | Recipes.HasAnyFoodType |
| question-2-data-model/index.ts:153-155 | the names to double are taken from `recipe.ingredients`, so the argument is ignored and every ingredient is doubled | doubling only `ham` in a ham (100 kcal) and cheese (80 kcal) recipe turns the cheese into 160 kcal | double only the ingredients named in the `ingredients` argument | high; not executed | Recipes.DoubleIngredientsIgnoresArgument | Recipes.DoubleNamedIngredients |
