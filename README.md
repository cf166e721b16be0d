# Money bot: the wallet statistics fold

The money bot keeps a user's money transactions as records. Each record has a signed `amount` (negative means money going out), a `category` and a `wallet` tag. The `/api/stats/:userId` endpoint loads all of a user's records and folds them into one result:

- four wallet balances: `main`, `deposit`, `borrowed` and `lent`;
- a map from each category to the money spent in it;
- the history of records, in the order they were received.

The records are folded one at a time, in the order given:

- a `deposit` record moves `|amount|` from `main` to `deposit`;
- a `borrowed` record adds `|amount|` to both `borrowed` and `main`;
- a `lent` record moves `|amount|` from `main` to `lent`;
- a record with any other wallet adds its signed amount to `main`. This covers `main`, a missing tag and an unknown tag;
- separately, every negative record adds `|amount|` to its category's total;
- every record is appended to the history.

The model is the module `StatsAggregator` in `stats.dfy`. `Aggregate` is the fold, written as the endpoint writes it: a loop that updates local balances, a category map and a growing history.

The specification works one column at a time. `Term` gives what one record adds to a column: a wallet balance, the signed amount of untagged records, or one category's outflow. `Total` sums a column over all records. `Summary` puts the sums together into the endpoint's result. `Aggregate` is proved to return exactly `Summary(txs)`. Because the result is fixed by its input, two calls on the same records return the same result.

The lemmas state the properties of the fold:

- on an empty input, everything is zero or empty;
- what each kind of record changes, and what it leaves alone;
- the balance identity for `main`;
- `deposit`, `borrowed` and `lent` are never negative;
- the category map holds exactly the categories that have outflow, each with a positive total;
- the balances and the category map do not depend on the order of the records.

Amounts are modelled as unbounded integers (whole tenge).

The design documentation has a worked example that disagrees with the code. For the records `(-500, Food, main)`, `(-1000, Deposit, deposit)` and `(2000, Took debt, borrowed)` it gives `main = 1500` and categories `{Food: 500}`. The code gives `main = 500`, because the deposit branch also takes 1000 out of `main` (server.js:41). It also gives categories `{Food: 500, Deposit: 1000}`, because every negative amount counts as outflow whatever its wallet (server.js:45). The model follows the code, and `WorkedExample` proves the code's values.

## Model

| member | source | states |
|---|---|---|
| StatsAggregator.Aggregate | server.js:38-47 | The fold returns exactly `Summary(txs)`. On an empty input it returns zero balances, an empty map and an empty history. `main` equals untagged signed amounts − Σ\|deposit\| + Σ\|borrowed\| − Σ\|lent\|. `deposit`, `borrowed` and `lent` are ≥ 0. A category is a key exactly when some negative record has it, and its value is that category's positive total outflow. The history equals the input. |
| StatsAggregator.Total | server.js:41-45 | Summing a column whose per-record contributions are absolute values (deposit, borrowed, lent, category outflow) never gives a negative result. |
| StatsAggregator.TotalAppend | server.js:39-46 | A column's sum over two record sequences joined together is the sum of the two separate sums. |
| StatsAggregator.BalanceIdentity | server.js:41-44 | At every input, the record-by-record effect on `main` adds up to: untagged signed amounts − deposited + borrowed − lent. |
| StatsAggregator.OutflowPositive | server.js:45 | A category's total outflow is > 0 if and only if some record with a negative amount has that category. |
| StatsAggregator.CategoryTotalsMeaning | server.js:45 | The category map's keys are exactly the categories of negative records. Each value is that category's total outflow and is > 0. |
| StatsAggregator.DepositRecord | server.js:41 | One more `deposit` record raises `deposit` by \|amount\| and lowers `main` by \|amount\|. `borrowed` and `lent` are unchanged. |
| StatsAggregator.BorrowedRecord | server.js:42 | One more `borrowed` record raises both `borrowed` and `main` by \|amount\|. `deposit` and `lent` are unchanged. |
| StatsAggregator.LentRecord | server.js:43 | One more `lent` record raises `lent` by \|amount\| and lowers `main` by \|amount\|. `deposit` and `borrowed` are unchanged. |
| StatsAggregator.DirectRecord | server.js:44 | One more record whose wallet is not `deposit`, `borrowed` or `lent` changes `main` by its signed amount, and changes no other balance. |
| StatsAggregator.CategoryRecord | server.js:45 | One more negative record adds \|amount\| to its category's entry, starting from 0 when the category is new. Any other record leaves the category map unchanged, whatever its wallet. |
| StatsAggregator.TotalPermutation | server.js:39-46 | A column's sum depends only on the multiset of records, not on their order. |
| StatsAggregator.OrderIndependent | server.js:39-46 | Two inputs that are permutations of each other give the same four balances and the same category map. Only the history depends on order. |
| StatsAggregator.WorkedExample | server.js:38-46 | For the deposit / borrow / food example, the code gives `main` 500, `deposit` 1000, `borrowed` 2000, `lent` 0 and categories `{Food: 500, Deposit: 1000}`. |

## Left out

- `parseWithAI` (server.js:17-32): an HTTP call to an external language model, followed by `JSON.parse` of its reply. This is network I/O and a foreign service, and it validates nothing.
- A deterministic text-to-transaction parser, and any check of the language model's output: the code has neither. The text handler stores whatever `parseWithAI` returns and replies with an error only when it returns null (server.js:73-79).
- Firestore reads and writes, including the `orderBy('date', 'desc')` query (server.js:37, 60, 75-77): persistence I/O. The model takes the records as a sequence in the order the store gives them.
- The Telegram bot handlers (server.js:53-56, 71-82): messaging plumbing.
- CSV export (server.js:59-69): formatting through date and number library calls, with no escaping.
- Express setup, static files, `listen`, and the HTTP 500 reply when loading fails (server.js:12-14, 48-49, 83): framework wiring.
- Fractional amounts, NaN and non-numeric amounts: amounts are whole integers, because the model does not reason about JavaScript floating point.
- Record fields other than `amount`, `category` and `wallet`, such as `date`: the source passes them through `history` unchanged, and the model leaves them out. A missing wallet is modelled as a string other than the three transfer names, which takes the same branch.
- A missing category: the source stores it under the key `"undefined"`. Category names that clash with JavaScript object prototype properties are out too. The model's categories are plain strings.
