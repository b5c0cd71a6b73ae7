# Finance tracker user store, in Dafny

This project models the user-document store of a personal finance tracker. An
Express server keeps every user as one JSON document in a `users.json` file,
which holds a single array. A request loads the whole array, computes, and
writes the whole array back. The operations are:

- registration, which creates a document with a zero dashboard and an empty ledger;
- login;
- reading a user by address;
- a shallow-merge update (`PUT /user/:email`). It protects the address and the
  password, and it recomputes `dashboard.balance` from `transactions`;
- appending a transaction. It also updates the balance and the trail of the
  last seven absolute amounts;
- listing users without their passwords.

An older copy of the server registers users differently. Three React
components read and write these documents, and the model covers the parts that
do so:

- the dashboard keeps a ledger, shows its balance, and sends the edited ledger
  back through the update;
- the registration form validates its input and sends the registration body;
- the budget planner builds spending categories from a document and saves a
  budget map through the update.

Documents are JSON values (`JsonData.Json`), and the JavaScript semantics the
code relies on are written out:

- truthiness (`x || default`, `!x`);
- `===`, under which arrays and objects never compare equal;
- the TypeErrors that a property write on a primitive, `.push` on a non-array,
  `.trim()` on a non-string or `t.amount` on `null` raises in strict mode. In
  the model these become `Eval.Throws`, and on the server a 500 reply.

The store file is the class `Store.UserFile`. A missing file is created
holding `[]`; any other read failure gives a 500.

Two properties of the store are studied.

- The registry (`Backend.Registry`): every stored address is trimmed and
  lower-case, and no two users share an address. The three handlers of the
  main server that write the store (`Backend.Register`, `Backend.UpdateUser`
  and `Backend.AddTransaction`) each state in their contract that a store in
  this state stays in it (`Backend.RegistryKept`). The older server's
  registration does not keep it (see Findings).
- A consistent balance (`Backend.BalanceConsistent`): the stored
  `dashboard.balance` is the one recomputed from the stored ledger.
  Registration establishes it (`Backend.NewUserIsConsistent`), and so does
  recording a transaction on an object dashboard (`Backend.RecordedIsConsistent`).
  An update establishes it when the merged `transactions` is an array and the
  dashboard is absent or an object (`Backend.MergeRecomputesBalance`). It is not
  an invariant of the store, however. An update with the body
  `{"dashboard": []}` keeps the balance out of an object, and one with
  `{"transactions": 5}` leaves no ledger to recompute from. The server accepts
  both.

The comment above the recomputation in the update handler
(`backend/server.js:173`) speaks of transactions "updated via PUT". The test on
lines 174-177, however, is only whether the merged `transactions` is an array,
and the model follows the test. So a `PUT` whose body has no `transactions`
still recomputes the balance whenever the stored `transactions` is an array.
The recomputed balance is the same as the stored one when that one was
consistent (`BudgetPlanner.BudgetSaveKeepsLedger`). A stale balance is
corrected, though, and a `null` entry in the stored ledger makes the update
fail with 500.

## Model

| member | source | states |
|---|---|---|
| Store.UserFile.ReadUsers | backend/server.js:21-33 | a missing file is created holding `[]` and reads as `[]`; an existing array is returned and the file is unchanged; any other failure yields no users and changes nothing |
| Store.Initialised | backend/server.js:21-33 | the file after a read is never missing, reads as before, and is unchanged unless it was missing |
| Store.UserFile.WriteUsers | backend/server.js:35-37 | the file afterwards holds exactly the given array |
| Ledger.Recompute | backend/server.js:40-44 | both totals are non-negative and the net balance is income minus expenses |
| Ledger.RecomputeFromTransactions | backend/server.js:40-44 | the fold throws exactly when an entry is `null`; otherwise income is the sum of the positive numeric amounts, expenses the sum of the magnitudes of the negative ones, and net their difference |
| Ledger.RecomputeAppend | backend/server.js:41-42 | appending one entry raises income by its credit and expenses by its debit, and nothing else |
| Ledger.NetIsSignedSum | backend/server.js:41-43 | the net balance equals the plain sum of the numeric amounts |
| Ledger.ZeroContributions | backend/server.js:41-42 | a ledger without non-zero numeric amounts has the zero balance |
| Text.Trim | backend/server.js:79 | the result neither starts nor ends with JavaScript whitespace and is no longer than the input |
| Text.TrimRemovesOnlyEnds | backend/server.js:79 | the result is a contiguous slice of the input, and everything cut off before and after it is whitespace |
| Text.TrimEmptyIffAllSpace | finance/tailwindcss4/src/components/Register.jsx:35 | a string trims to empty exactly when every character is whitespace |
| Text.Lower | backend/server.js:132 | lower-casing keeps the length and maps each character on its own |
| Text.NormalizeIdempotent | backend/server.js:79 | normalising an address that is already normalised changes nothing |
| Seqs.IndexOf | backend/server.js:157 | `findIndex`: -1 exactly when no element matches; otherwise the first matching index |
| Seqs.LastN | backend/server.js:226 | `slice(-n)`: the last `min(n, length)` elements, in order |
| Seqs.LastNAbsorbs | backend/server.js:224-226 | keeping the last n before appending more does not change the last n after it |
| Seqs.FilterCounts | tailwindcss4/src/components/dashboard.jsx:234 | `filter` keeps every occurrence of an element that passes the test and none of one that fails |
| Seqs.FilterFilter | tailwindcss4/src/components/dashboard.jsx:249-261 | two filters in a row are one filter by the conjunction |
| Backend.WithoutPassword | backend/server.js:95 | the reply copy has no password and every other key unchanged |
| Backend.RegistryMeansUniqueKeys | backend/server.js:73-75 | under the registry no two users have addresses that normalise to the same string |
| Backend.AppendKeepsRegistry | backend/server.js:73-92 | appending a user with a normalised address that is not yet taken keeps the registry |
| Backend.ReplaceKeepsRegistry | backend/server.js:179 | replacing a user by a document with the same address keeps the registry |
| Backend.NewUserIsConsistent | backend/server.js:77-90 | a new user has an empty ledger and a zero balance that is consistent with it |
| Backend.RegistrationKeepsRegistry | backend/server.js:73-92 | registering an address whose normalised form is not taken keeps addresses normalised and unique |
| Backend.Register | backend/server.js:63-101 | 400 exactly when a name, email or password is missing or falsy; 409 exactly when the normalised address is taken; 201 exactly when the body is accepted, and then the store gains the new document and the reply carries it without the password; otherwise 500; no user is added unless the reply is 201, and on a 409 or 500 the file is as the read left it (a missing one created holding `[]`, any other unchanged); a store in the registry state stays in it |
| Backend.LoginIndexMeansMatch | backend/server.js:111-114 | login finds a user exactly when one has the normalised address and a `===` password, and the user it finds has both |
| Backend.Login | backend/server.js:104-126 | 400 exactly when the email or the password is missing or falsy; 200 exactly when a user matches, with that user's passwordless document; 401 with one generic message otherwise; 500 on an unreadable store or a non-string address; past the 400 the file is as the read left it (a missing one created holding `[]`, any other unchanged) |
| Backend.GetUser | backend/server.js:129-143 | the first user whose address equals the lower-cased parameter is returned without its password; 404 when none matches; the file is as the read left it (a missing one created holding `[]`, any other unchanged) |
| Backend.MergeFrame | backend/server.js:163 | apart from the address, the password and the dashboard, the merged document is exactly `{ ...stored, ...body }` |
| Backend.MergeReplacesWholesale | backend/server.js:163 | each other key in the body replaces the stored value wholesale |
| Backend.MergeKeepsEmail | backend/server.js:166 | the stored address survives every update and cannot be added or removed |
| Backend.MergePassword | backend/server.js:169-171 | a truthy password in the body replaces the stored one; otherwise the stored password, or its absence, is kept |
| Backend.MergeWithoutLedger | backend/server.js:173-177 | when the merged `transactions` is not an array the update cannot fail and leaves the dashboard as the spread gave it |
| Backend.MergeRecomputesBalance | backend/server.js:174-177 | when the merged `transactions` is an array the update fails exactly on a `null` entry or a primitive dashboard; an array dashboard is left alone; otherwise the dashboard's balance is the one recomputed from that array and its other keys are kept |
| Backend.MergeKeepsRegistry | backend/server.js:163-179 | a successful update keeps addresses normalised and unique |
| Backend.UpdateUser | backend/server.js:153-189 | 500 on an unreadable store, left as it was; 404 when no user has the lower-cased address, and 500 when the merge throws, each with the file as the read left it (a missing one created holding `[]`); otherwise only that user is replaced by the merge and the reply is the merged document without its password; a store in the registry state stays in it |
| Backend.SaveMerged | backend/server.js:163-188 | the write phase of the update: a throwing merge leaves the store alone and gives 500; otherwise the user at the index is replaced by the merge and the registry is kept |
| Backend.PushRecent | backend/server.js:224-226 | the trail after a push holds 1 to 7 entries, ends with the pushed amount, and is a suffix of the old trail plus that amount |
| Backend.TrailAfterIsLastSeven | backend/server.js:224-226 | pushing amounts one by one leaves the last seven of everything pushed |
| Backend.RecentTrailHoldsLastSeven | backend/server.js:224-226 | after at least seven transactions the trail is exactly their last seven amounts, in order |
| Backend.RecordTransaction | backend/server.js:215-226 | recording fails exactly when one of the handler's property writes or pushes throws; otherwise the ledger gains the transaction, the balance is recomputed from the new ledger, the trail gets the absolute amount, and no other key changes |
| Backend.RecordedIsConsistent | backend/server.js:215-220 | after a transaction is recorded on an object dashboard the stored balance is consistent with the stored ledger |
| Backend.PushRecentLength | backend/server.js:224-226 | the trail grows by one until it holds seven amounts and then stays at seven |
| Backend.RecordedKeepsOtherKeys | backend/server.js:215-226 | recording touches only `transactions` and `dashboard` |
| Backend.RecordedKeepsEmail | backend/server.js:215-226 | recording a transaction leaves the address as it was |
| Backend.RecordingKeepsRegistry | backend/server.js:200-228 | recording a transaction keeps addresses normalised and unique |
| Backend.AddTransaction | backend/server.js:192-236 | 400 unless the amount is a number and the description and category are truthy; 500 on an unreadable store, left as it was; 404 on an unknown user, and 500 on a throwing document, each with the file as the read left it (a missing one created holding `[]`); otherwise only that user changes, the change is the recorded transaction, and the reply is the new document without its password; a store in the registry state stays in it |
| Backend.SaveRecorded | backend/server.js:215-235 | the write phase of adding a transaction: a throwing document leaves the store alone and gives 500; otherwise only that user changes, by the recorded transaction, and the registry is kept |
| Backend.SafeList | backend/server.js:242 | one entry per user, each that user without the password |
| Backend.ListUsers | backend/server.js:239-248 | 200 with every user, passwords removed, or 500 with the list message; the file is as the read left it (a missing one created holding `[]`, any other unchanged) |
| LegacyBackend.Register | finance/backend/server.js:55-97 | 400 without a truthy name, email and password; 409 when a stored address is `===` the raw submitted one; otherwise a new three-field document is stored and the reply carries only the name and the address; on a 409 or a later 500 the file is as the read left it |
| LegacyBackend.RegistrationKeepsNormalized | finance/backend/server.js:75-82 | the older registration still stores only normalised addresses |
| LegacyBackend.SampleAddresses | finance/backend/server.js:77 | `ann@x.com` and `Ann@x.com` normalise to the same address |
| LegacyBackend.DuplicateCheckMissesCase | finance/backend/server.js:68-82 | a store in the registry state accepts a second registration of `ann@x.com` typed as `Ann@x.com`, and then two users share an address |
| Dashboard.AmountsOf | tailwindcss4/src/components/dashboard.jsx:110-114 | each entry contributes its amount, in ledger order |
| Dashboard.TallyBalance | tailwindcss4/src/components/dashboard.jsx:105-119 | the loop computes the server's balance of the ledger |
| Dashboard.SignedAmount | tailwindcss4/src/components/dashboard.jsx:205-208 | Salary, Freelance and Investment keep the typed sign; every other category negates it |
| Dashboard.AddTransaction | tailwindcss4/src/components/dashboard.jsx:197-217 | rejected exactly on an empty amount or category; otherwise the ledger gains one entry at the end, with the time as id, the category as description and the signed amount |
| Dashboard.AddMovesBalance | tailwindcss4/src/components/dashboard.jsx:205-217 | an add changes income, expenses and the net by exactly the new entry's contribution |
| Dashboard.DeleteById | tailwindcss4/src/components/dashboard.jsx:232-237 | delete keeps, in order, exactly the entries with a different id, each as often as before; a row without an id passes no id, and then every entry without one goes |
| Dashboard.DeleteAbsentId | tailwindcss4/src/components/dashboard.jsx:234 | deleting an id no entry carries changes nothing |
| Dashboard.DeleteIdempotent | tailwindcss4/src/components/dashboard.jsx:234 | deleting twice by an id is deleting once |
| Dashboard.ViewIsSubsequence | tailwindcss4/src/components/dashboard.jsx:246-261 | the view is the newest-first ledger with entries dropped, never reordered; an entry is shown exactly when it passes both filters |
| Dashboard.ViewUnfiltered | tailwindcss4/src/components/dashboard.jsx:246-253 | with all categories and no search text the view is the whole ledger, newest first |
| Dashboard.ViewHonoursCategory | tailwindcss4/src/components/dashboard.jsx:249-251 | with a category chosen every entry shown has that category |
| Dashboard.TxJson | tailwindcss4/src/components/dashboard.jsx:209-215 | a serialised entry is an object carrying its amount |
| Dashboard.UpdatePayload | tailwindcss4/src/components/dashboard.jsx:73-80 | the update body is the cached user with only `transactions` replaced by the new ledger |
| Dashboard.ClearPayload | tailwindcss4/src/components/dashboard.jsx:239-244 | clear-all sends the cached user with only the ledger emptied |
| Dashboard.ServerFoldAgrees | tailwindcss4/src/components/dashboard.jsx:105-119 | for a ledger the dashboard sends, the server's fold cannot throw and equals the dashboard's balance |
| Dashboard.ServerStoresShownBalance | tailwindcss4/src/components/dashboard.jsx:73-89 | after the dashboard's update the server stores the balance the dashboard shows, whenever the dashboard key is absent or an object |
| Dashboard.ClearZeroesServerBalance | tailwindcss4/src/components/dashboard.jsx:239-244 | after clear-all the server stores the zero balance |
| LegacyDashboard.AddTransaction | finance/tailwindcss4/src/components/dashboard.jsx:59-75 | rejected exactly on an empty amount or category; otherwise one entry without an id is appended, with the signed amount |
| LegacyDashboard.SameEntryAsDashboard | finance/tailwindcss4/src/components/dashboard.jsx:65-73 | both dashboards accept the same forms and append the same entry apart from its id |
| LegacyDashboard.SameBalanceAsDashboard | finance/tailwindcss4/src/components/dashboard.jsx:34-53 | after an add both dashboards fold the same amounts, so they show the same balance |
| LegacyDashboard.History | finance/tailwindcss4/src/components/dashboard.jsx:199-203 | the history rows are the ledger newest first |
| LegacyDashboard.AddHeadsHistory | finance/tailwindcss4/src/components/dashboard.jsx:199-203 | after an add the new entry heads the history and the earlier rows follow in their order |
| RegisterForm.PatternHasShape | finance/tailwindcss4/src/components/Register.jsx:39-40 | an address the pattern matches has no whitespace, one `@` that is not first, and a later `.` that is neither right after it nor last |
| RegisterForm.ShapeMatchesPattern | finance/tailwindcss4/src/components/Register.jsx:39-40 | every address of that shape is matched by the pattern |
| RegisterForm.EmailShapeIsPattern | finance/tailwindcss4/src/components/Register.jsx:39-40 | the direct check accepts exactly the addresses the pattern matches |
| RegisterForm.ValidateAcceptsExactly | finance/tailwindcss4/src/components/Register.jsx:34-45 | validation returns no message exactly when every check passes |
| RegisterForm.ValidateReportsFirstFailure | finance/tailwindcss4/src/components/Register.jsx:34-45 | each message appears exactly when its check is the first to fail, in the order of the form |
| RegisterForm.BlankFieldsRejected | finance/tailwindcss4/src/components/Register.jsx:35-37 | a whitespace-only name or address, or an empty password, asks for the required fields |
| RegisterForm.Payload | finance/tailwindcss4/src/components/Register.jsx:61-65 | the body has exactly a name, an address and the password as typed |
| RegisterForm.AcceptedPayload | finance/tailwindcss4/src/components/Register.jsx:61-65 | for an accepted form the address sent is the typed one lower-cased, and the body passes the server's required-fields check |
| RegisterForm.ServerKeepsSentEmail | finance/tailwindcss4/src/components/Register.jsx:63 | the server's normalisation leaves the address the form sends as it is |
| BudgetPlanner.NoExpensesNoSpending | tailwindcss4/src/components/BudgetPlanner.jsx:53-59 | without negative numeric amounts no category has spending |
| BudgetPlanner.SpentAppend | tailwindcss4/src/components/BudgetPlanner.jsx:53-59 | spending over two ledgers is the sum over each |
| BudgetPlanner.SpentByCategory | tailwindcss4/src/components/BudgetPlanner.jsx:53-59 | the spending map has a key exactly for the categories with spending, and each value is the sum of the magnitudes of that category's negative amounts |
| BudgetPlanner.Built | tailwindcss4/src/components/BudgetPlanner.jsx:62-77 | with no budgets the four default categories are used; otherwise there is one category per budget entry, in order, with its name, its limit read as a number or 0, and its spending |
| BudgetPlanner.BuildCategories | tailwindcss4/src/components/BudgetPlanner.jsx:48-80 | the categories built from the stored budget entries and ledger are exactly `Built` (for an object `budgets` and an array ledger; see Left out) |
| BudgetPlanner.DefaultBudgets | tailwindcss4/src/components/BudgetPlanner.jsx:62-67 | a record of the constant defaults, not a general property: four categories budgeting 20500 in total |
| BudgetPlanner.DefaultsSaved | tailwindcss4/src/components/BudgetPlanner.jsx:62-67 | for every ledger, saving the unedited defaults stores the four default limits, and their total spending is the ledger's spending in those four categories |
| BudgetPlanner.ProgressBounds | tailwindcss4/src/components/BudgetPlanner.jsx:112-117 | the percentage is 0 for a non-positive budget, never above 100, never negative for non-negative spending, and 100 exactly when the rounded ratio reaches it |
| BudgetPlanner.ProgressRounds | tailwindcss4/src/components/BudgetPlanner.jsx:115 | below the cap the percentage is the spent/budget ratio rounded half up |
| BudgetPlanner.ColorBands | tailwindcss4/src/components/BudgetPlanner.jsx:119-123 | teal below 50, amber from 50 below 80, red from 80 |
| BudgetPlanner.ColorOfSpending | tailwindcss4/src/components/BudgetPlanner.jsx:112-123 | a category spent to its budget shows red, and one with no spending shows teal |
| BudgetPlanner.BudgetMapKeys | tailwindcss4/src/components/BudgetPlanner.jsx:130-133 | the saved budget map has a key exactly for each category name |
| BudgetPlanner.BudgetMapLastWins | tailwindcss4/src/components/BudgetPlanner.jsx:130-133 | a name's saved budget is that of its last category |
| BudgetPlanner.BudgetsFrom | tailwindcss4/src/components/BudgetPlanner.jsx:130-133 | the `forEach` loop builds exactly the budget map |
| BudgetPlanner.SaveAfterBuild | tailwindcss4/src/components/BudgetPlanner.jsx:69-77 | saving right after building from stored budgets with distinct names gives back the same names with their limits as numbers |
| BudgetPlanner.BudgetSaveKeepsLedger | tailwindcss4/src/components/BudgetPlanner.jsx:130-140 | saving budgets onto a consistent document replaces the budgets and leaves the ledger and the balance as they were |
| BudgetPlanner.AddCategory | tailwindcss4/src/components/BudgetPlanner.jsx:161-181 | rejected exactly on an empty name or a missing or non-positive budget; otherwise one category with no spending is appended |
| BudgetPlanner.AddCategorySaves | tailwindcss4/src/components/BudgetPlanner.jsx:186-187 | the map saved after an add is the old map with the new name set to its budget |
| BudgetPlanner.UpdateBudget | tailwindcss4/src/components/BudgetPlanner.jsx:209-216 | rejected exactly on a missing or non-positive budget; otherwise only the categories with that id get the new budget |
| BudgetPlanner.UpdateKeepsSpending | tailwindcss4/src/components/BudgetPlanner.jsx:216 | changing a budget leaves the total spent unchanged |
| BudgetPlanner.DeleteCategory | tailwindcss4/src/components/BudgetPlanner.jsx:251-252 | delete keeps, in order, exactly the categories with a different id, each as often as before |
| BudgetPlanner.DeleteAbsentCategory | tailwindcss4/src/components/BudgetPlanner.jsx:251 | deleting an id no category carries changes nothing |
| BudgetPlanner.DeletedNamesLeaveSave | tailwindcss4/src/components/BudgetPlanner.jsx:251-252 | a name whose categories all carry the deleted id is no longer in the saved budget map |
| BudgetPlanner.RemainingIsDifference | tailwindcss4/src/components/BudgetPlanner.jsx:498-510 | the remaining total is the total budget minus the total spent |

The older server's login and user list (`finance/backend/server.js:99-154`)
are the same code as the main server's, so `Backend.Login` and
`Backend.ListUsers` model them too. Its store reader (`finance/backend/server.js:23-36`)
behaves as `Store.UserFile.ReadUsers`.

## Left out

- File I/O is abstract. The store file is `Missing`, `Holds(users)` or `Unreadable`. `Unreadable` covers every read failure other than a missing file, malformed JSON and content that is not an array. A failing write is not modelled: `Store.UserFile.WriteUsers` always succeeds.
- Concurrency is left out. Two requests that interleave their load and rewrite can lose an update. Every handler is modelled as one atomic step.
- Object key order is left out. Objects are maps, so the order of keys in stored and serialised documents is lost.
- Store elements that are not objects are left out. A `null` element makes `some`/`find` throw; such elements are outside `seq<Doc>`. Request bodies are likewise JSON objects.
- Numbers are integers. Fractional amounts, IEEE rounding, `NaN` and `Infinity` are outside the model. `parseFloat` of a number input is `Inputs.NumberField`: blank, or an integer.
- Dashboard.Tx: ledger entries of the dashboard are typed, with an integer amount and a string description. A stored entry with a missing or string amount is therefore outside the model. On such an entry the dashboard's loop (`tailwindcss4/src/components/dashboard.jsx:110-113`) gives `NaN` or joins strings, while the server's fold skips the entry.
- Dashboard.ServerFoldAgrees: holds only for typed ledgers, for the reason given under Dashboard.Tx. For a ledger with a string amount the two balances differ.
- Backend.BalanceConsistent: this is not preserved by every update. The update handler accepts bodies that replace the dashboard by an array or the ledger by a non-array, as described above.
- Text.Lower: `toLowerCase` maps only ASCII letters. Unicode case mapping is not modelled.
- RegisterForm.Validate: the length check counts characters. JavaScript counts UTF-16 code units, which differs outside the basic plane.
- BudgetPlanner.NumberOr0: `Number(limit)` is read for integers, booleans and strings of decimal digits with optional sign and surrounding whitespace. Fractions, exponents, hex literals and arrays all read as 0. The source reads some of these as other values.
- BudgetPlanner.BuildCategories: the stored budgets and ledger are taken already as a list of entries and a list of JSON values. The document fields they come from are not modelled (`tailwindcss4/src/components/BudgetPlanner.jsx:49-50`). Two behaviours are therefore missing. First, a truthy ledger that is not an array, such as the `{}` an update can store, passes `u?.transactions || []`, and then `reduce` throws. Second, `Object.keys` and `Object.entries` of a string or array `budgets` yield entries keyed by index (`BudgetPlanner.jsx:69-70`).
- BudgetPlanner.SpentOr0: keys inherited from `Object.prototype` (for a category named `constructor`) are not modelled. The model reads them as 0.
- BudgetPlanner.SpentByCategory, BudgetPlanner.BudgetMap, BudgetPlanner.BudgetsFrom: a category named `__proto__` is outside the model. In the source, assigning `acc[name]` or `budgets[name]` for that name goes to the prototype accessor and adds no key, so the spending map and the saved budgets lack it. The model adds the key like any other.
- BudgetPlanner.Category: the random id (`Math.random().toString(36)`) is the parameter `token`.
- `Date.now()` and today's date are the parameters `now` and `today`. `dayjs(...).format("LL")` is the parameter `dateLabel`.
- React state and effects are left out, as are `localStorage`, `fetch`, `alert`, `confirm`, navigation, charts and the reset of the quick-add form. The dashboard's copy of the ledger is the value passed in, and the server's answer to a save is not fed back.
- The server's `GET /` status route is not part of this model.
- The login pages are not part of this model. Their state is only form fields passed to `/login`, which `Backend.Login` models.

## Findings

| source | as written | input that shows it | evidently intended | confidence | as-written member | corrected member |
|---|---|---|---|---|---|---|
| finance/backend/server.js:68 | the duplicate check compares the stored, normalised addresses with the address exactly as submitted, while the stored address is trimmed and lower-cased | a store holding `ann@x.com`, then registering `Ann@x.com`: the check passes and two users share `ann@x.com` | compare with the normalised address, as `backend/server.js:73-75` does | not executed; proved on the model | LegacyBackend.DuplicateCheckMissesCase | Backend.RegistrationKeepsRegistry |
