# inex: a verified model of the finance app's core

inex is a small personal-finance web application. A signed-in user keeps
accounts (cash or bank, each with a balance and a currency), categories
(their own plus a shared default set) and income/expense transactions in a
per-user document store. Adding a transaction also moves the balance of the
account it names. This project models that core in Dafny and proves what it
promises:

- **The document store and the three service gateways.** The store is the
  `Store.Db` class. Its collections are maps from a document id to the
  stored fields, per user, plus the shared default categories. Fresh ids come
  from one counter, and `Db.Valid()` keeps that counter ahead of every
  stored id.
  - Every write is a method whose `ensures` gives the whole new state.
  - Every read is a function that lists a collection back.
- **`addTransaction`.** It runs in three separate steps: insert the
  transaction, read the account, write back `balance ± amount`. There is no
  rollback. A `Fault` parameter says which remote step is refused. The
  outcome tells "added" apart from "stored, but the balance was not updated".
- **The route guard** that runs before pages are served, and the set of paths
  it runs on.
- **The auth context.**
  - The provider's error-code-to-message table.
  - The `error`/`success` banners every action sets, with the invariant that
    they are never both set.
  - The calls made to the auth provider, kept in order.
  - The auth-token cookie the listener writes and clears.
- **The small pure pieces:**
  - the header's avatar initials and greeting name;
  - the dashboard totals;
  - the transaction list's lookups with fallbacks, and its in-place
    newest-first sort;
  - the reset-password form;
  - the label helpers, and the enumerations and records.

Conventions:

- Amounts and balances are `int` in minor units.
- A date is `(year, month 0..11, day)`, as JavaScript's `Date` counts months.
- The clock ("today"), the auth provider's answers and the store's failures
  are parameters.
- The source calls the `type` field `type`; it is `kind` here, since `type`
  is a Dafny keyword.

What the code does, as opposed to what its types and names suggest:

- Reading a missing account does not fail. It yields a record that carries
  only the id.
- Nothing checks that amounts are non-negative or that stored enumeration
  values are valid. The label helpers therefore take the raw stored string.
- Default categories are not guaranteed `isDefault = true`.
- `updateCategory` copies `isDefault` from its argument. A user's category
  can therefore become "default".
- The `Transaction` record types `date` as a string. The code treats it as a
  timestamp (`toDate()`, date-range queries). The model uses a date.
- The record has no `currency` field, although the transaction list reads
  one.

## Model

| member | source | states |
|---|---|---|
| Types.AccountTypeValueInjective | src/types/account.ts:1-4 | the two account types are stored as two different strings ("cash", "bank") |
| Types.CurrencyCodeInjective | src/types/account.ts:6-10 | each of PLN, EUR, USD is its own distinct code string |
| Types.CurrencySymbolsDistinct | src/types/account.ts:12-16 | two currencies have the same symbol exactly when they are the same currency |
| Types.CategoryTypeIsTransactionType | src/types/category.ts:4 | each category type string is the value of the matching transaction type |
| Types.DateLeTotalPreorder | src/services/transactionService.ts:9 | date order is total and transitive, so ordering by date is well defined |
| Store.Db.NextIdIsFresh | src/services/accountService.ts:27 | in a valid store the next id names no document in any collection, so `addDoc` never reuses an id |
| Store.Db.constructor | src/services/categoryService.ts:15-16 | a store with no user documents and only the seeded shared categories is valid, with its counter past their ids |
| AccountService.Merge | src/services/accountService.ts:31-34 | each field the patch supplies replaces the stored one; every other field is kept |
| AccountService.MergeIdempotent | src/services/accountService.ts:31-34 | merging the same patch twice equals merging once; the empty patch changes nothing |
| AccountService.BalancePatchOnlyBalance | src/services/transactionService.ts:45-47 | the balance-only patch changes the balance and no other field |
| AccountService.GetUserAccount | src/services/accountService.ts:6-14 | the result carries the requested id, and the stored fields exactly when the account exists; a missing account does not fail |
| AccountService.GetUserAccounts | src/services/accountService.ts:16-23 | every listed account is stored under that user with those fields, every stored account is listed, and no id is listed twice |
| AccountService.AddAccount | src/services/accountService.ts:25-29 | the fields are stored under a previously unused id, which is returned; nothing else changes; reading it back gives the fields |
| AccountService.UpdateAccount | src/services/accountService.ts:31-34 | an existing account gets the merge of the patch and nothing else changes; a missing one is refused with NotFound and nothing changes |
| AccountService.DeleteAccount | src/services/accountService.ts:36-39 | exactly that account of that user is removed; transactions that reference it stay |
| CategoryService.NameLeIsTotalPreorder | src/services/categoryService.ts:17 | ordering by name is a total preorder on categories |
| CategoryService.ByName | src/services/categoryService.ts:17-21 | a name-ordered query returns the collection's documents, each once, sorted by name |
| CategoryService.GetDefaultCategories | src/services/categoryService.ts:15-22 | exactly the shared categories, sorted by name |
| CategoryService.GetUserCategories | src/services/categoryService.ts:24-31 | exactly the user's own categories, sorted by name |
| CategoryService.AddCategory | src/services/categoryService.ts:33-43 | the fields are stored with isDefault false under a fresh id, which is returned; nothing else changes |
| CategoryService.UpdateCategory | src/services/categoryService.ts:45-54 | name, type, color, icon and isDefault are overwritten, isDefault copied from the argument; a missing category is refused with NotFound |
| CategoryService.DeleteCategory | src/services/categoryService.ts:56-59 | one user category is removed; the shared collection is never written |
| TransactionService.GetAllUserTransactions | src/services/transactionService.ts:32-39 | exactly the user's stored transactions, each once, tagged with their id |
| TransactionService.FirstOfMonth | src/services/transactionService.ts:22-23 | the first of a month; month 12 carries into January of the next year |
| TransactionService.DatedWithin | src/services/transactionService.ts:22-23 | every kept transaction is from the list and dated in [from, until), and every listed one in the window is kept |
| TransactionService.DatedWithinCounts | src/services/transactionService.ts:22-23 | the filter keeps each transaction in the window exactly as often as the list holds it, and no other |
| TransactionService.DatedWithinIdsDistinct | src/services/transactionService.ts:22-27 | filtering a list whose ids are distinct gives a list whose ids are distinct |
| TransactionService.GetMonthUserTransactions | src/services/transactionService.ts:16-30 | only the user's transactions dated from the first of this month to before the first of the next, all of them, each once |
| TransactionService.MonthWindowIsCalendarMonth | src/services/transactionService.ts:22-23 | for a real date the window holds exactly today's calendar month, December included |
| TransactionService.NewerFirstIsTotalPreorder | src/services/transactionService.ts:9 | date-descending order is a total preorder |
| TransactionService.GetLastUserTransactions | src/services/transactionService.ts:7-14 | at most 10 of the user's transactions, each once, newest first; a stored one left out is no newer than any returned, and then 10 were returned |
| TransactionService.SignedAmount | src/services/transactionService.ts:46 | an expense subtracts its amount, income adds it |
| TransactionService.ApplyToBalance | src/services/transactionService.ts:44-47 | only the balance of the referenced account moves, by the signed amount; every other account and field is kept |
| TransactionService.BalanceAfterAdds | src/services/transactionService.ts:44-47 | after a run of successful adds each account's balance is its start plus the signed sum of the transactions referencing it |
| TransactionService.NetFlowOfOneAccount | src/services/transactionService.ts:44-47 | for a run of adds on one account, the change is the signed sum of the whole run |
| TransactionService.InsertTransaction | src/services/transactionService.ts:42-43 | the transaction is stored under a fresh id in the user's transactions; nothing else changes |
| TransactionService.AddTransaction | src/services/transactionService.ts:41-48 | the insert comes first; if it fails nothing changes; after it the transaction stays stored; only when every step succeeds does the referenced account's balance move, by the signed amount; a missing account is refused with NotFound |
| TransactionService.MergeTransaction | src/services/transactionService.ts:50-53 | each supplied field replaces the stored one; the others are kept |
| TransactionService.MergeTransactionIdempotent | src/services/transactionService.ts:50-53 | merging the same patch twice equals merging once; the empty patch changes nothing |
| TransactionService.UpdateTransaction | src/services/transactionService.ts:50-53 | one existing transaction gets the merge, a missing one is refused with NotFound; no account changes |
| TransactionService.DeleteTransaction | src/services/transactionService.ts:55-58 | one transaction is removed; no account changes |
| Scenario.CheckingAccountExpense | src/services/transactionService.ts:41-48 | a bank account opened with 1000 reads 850 after a 150 expense, and the user has one stored transaction |
| Middleware.Guard | src/middleware.ts:4-22 | redirect to /login exactly without a token off the auth pages, to /dashboard exactly with a token on them, otherwise pass |
| Middleware.NeverTheWrongWay | src/middleware.ts:12-19 | a logged-in request is never sent to /login, a logged-out one never to /dashboard |
| Middleware.RedirectTargetsPass | src/middleware.ts:6-21 | each redirect target lets the same request through, so redirects cannot loop |
| Middleware.TokenValueIrrelevant | src/middleware.ts:5-9 | the decision depends on the cookie's presence, not its value |
| Middleware.AtEdge | src/middleware.ts:24-26 | paths outside the matcher always pass; matched paths get the guard's decision |
| Middleware.EdgeRedirectTargetsPass | src/middleware.ts:24-26 | both redirect targets are matched paths and pass the redirected request |
| AuthContext.CaseOf | src/contexts/AuthContext.tsx:39-68 | the switch case a code falls into, the default exactly for codes not named |
| AuthContext.GetErrorMessage | src/contexts/AuthContext.tsx:38-69 | each of the fourteen named codes gets its own case's message; every other code gets the generic one |
| AuthContext.TablesDistinct | src/contexts/AuthContext.tsx:40-69 | no code is named twice and the fifteen messages are pairwise distinct |
| AuthContext.MessageDeterminesCode | src/contexts/AuthContext.tsx:40-69 | two codes get the same message exactly when they are equal or both unknown |
| AuthContext.AfterAction | src/contexts/AuthContext.tsx:95-168 | after a sign-in, sign-up or reset exactly one banner is set: success on success, the code's message on failure |
| AuthContext.AfterLogout | src/contexts/AuthContext.tsx:170-179 | logout never sets success, and sets an error exactly when sign-out fails |
| AuthContext.CookieAfterWrite | src/contexts/AuthContext.tsx:84-88 | writing max-age 0 deletes the cookie; otherwise it holds the value and max-age |
| AuthContext.AuthProvider.constructor | src/contexts/AuthContext.tsx:74-77 | no user, loading, no banners |
| AuthContext.AuthProvider.OnAuthStateChanged | src/contexts/AuthContext.tsx:79-89 | stores the user, ends loading, writes the token cookie for 3600 s when signed in and clears it when not |
| AuthContext.AuthProvider.ClearBanners | src/contexts/AuthContext.tsx:96-97 | both banners are cleared |
| AuthContext.AuthProvider.Settle | src/contexts/AuthContext.tsx:100-107 | one banner from the provider's answer; returns whether it succeeded |
| AuthContext.AuthProvider.SignInWithGoogle | src/contexts/AuthContext.tsx:95-108 | one popup sign-in request; banners per AfterAction; returns success; the banners are never both set |
| AuthContext.AuthProvider.SignInWithEmail | src/contexts/AuthContext.tsx:110-122 | one password sign-in request with those credentials; banners per AfterAction; returns success |
| AuthContext.AuthProvider.SignUpWithEmail | src/contexts/AuthContext.tsx:124-136 | one sign-up request; banners per AfterAction; returns success |
| AuthContext.AuthProvider.ResetPassword | src/contexts/AuthContext.tsx:138-154 | one reset-email request; banners per AfterAction; returns success |
| AuthContext.AuthProvider.ConfirmResetPassword | src/contexts/AuthContext.tsx:156-168 | one confirm-reset request with that code and password; banners per AfterAction; returns success |
| AuthContext.AuthProvider.Logout | src/contexts/AuthContext.tsx:170-179 | one sign-out request; banners per AfterLogout |
| Header.Split | src/components/Header.tsx:12 | the parts joined back give the input, no part holds the separator, and there is more than one part exactly when the separator occurs |
| Header.SplitJoin | src/components/Header.tsx:12 | splitting undoes joining separator-free parts |
| Header.FirstPart | src/components/Header.tsx:77 | the first part is the longest separator-free prefix |
| Header.Upper | src/components/Header.tsx:13 | upper-casing keeps the length and maps each character |
| Header.Plus | src/components/Header.tsx:13 | adding two `[0]` results fails (NaN) exactly when both are undefined, and two characters make a two-character string |
| Header.GetInitials | src/components/Header.tsx:10-16 | the empty string gives "?" |
| Header.TwoWords | src/components/Header.tsx:12-13 | two space-separated words give the capitals of their first letters, whatever follows |
| Header.SpaceBeforeAt | src/components/Header.tsx:13-14 | the space rule wins over the "@" rule |
| Header.EmailGivesOneLetter | src/components/Header.tsx:14 | without a space but with "@", one capital |
| Header.NameGivesTwoLetters | src/components/Header.tsx:15 | without space or "@", the first two characters in capitals |
| Header.ShortNameGivesOneLetter | src/components/Header.tsx:15 | a one-character name gives one capital |
| Header.LeadingSpaceShowsUndefined | src/components/Header.tsx:12-13 | a leading space shows "UNDEFINED" and the next letter |
| Header.LoneSpaceThrows | src/components/Header.tsx:12-13 | a lone space throws |
| Header.TrailingSpaceShowsUndefined | src/components/Header.tsx:12-13 | a trailing space shows the first letter and then "UNDEFINED" |
| Header.DoubledSpaceShowsUndefined | src/components/Header.tsx:12-13 | two spaces between two words show the first letter and then "UNDEFINED" |
| Header.Words | src/components/Header.tsx:12 | keeps exactly the non-empty parts: each kept part is a non-empty part, every non-empty part is kept, and all parts when none is empty |
| Header.WordsAppend | src/components/Header.tsx:12 | dropping empty parts keeps their order: the words of a concatenation are the words of each half |
| Header.GetInitialsIntended | src/components/Header.tsx:10-16 | the corrected initials always have one or two characters |
| Header.IntendedAgreesWithoutEmptyParts | src/components/Header.tsx:10-16 | where no part is empty the corrected initials are what the written code shows |
| Header.IntendedOnEmptyParts | src/components/Header.tsx:12-13 | where the written code throws or shows ten characters, the corrected code shows "?" or the initials without the space |
| Header.AvatarSource | src/components/Header.tsx:97 | the display name if non-empty, else the email, else "" |
| Header.GreetingName | src/components/Header.tsx:77 | for a display name that starts with a non-space character, the greeting is its first word, non-empty; otherwise the email up to its "@", or nothing without an email |
| Dashboard.OfType | src/app/dashboard/page.tsx:107-108 | keeps exactly the transactions of that type |
| Dashboard.TotalIncome | src/app/dashboard/page.tsx:107 | the sum over all transactions of the income amounts, expenses counting 0 |
| Dashboard.TotalExpenses | src/app/dashboard/page.tsx:108 | the sum over all transactions of the expense amounts, income counting 0 |
| Dashboard.Balance | src/app/dashboard/page.tsx:109 | the sum of the balances is never negative when no balance is |
| Dashboard.OfTypeSum | src/app/dashboard/page.tsx:107-108 | filtering by type and then summing equals summing with the other type's amounts as 0 |
| Dashboard.SumPermutation | src/app/dashboard/page.tsx:107-109 | a sum does not depend on the order of its terms |
| Dashboard.EmptyTotals | src/app/dashboard/page.tsx:107-109 | empty lists give totals of 0 |
| Dashboard.IncomePlusExpenses | src/app/dashboard/page.tsx:107-108 | income plus expenses is the sum of all amounts |
| Dashboard.TotalsIgnoreOrder | src/app/dashboard/page.tsx:107-109 | no total depends on the order of the lists |
| TransactionsList.GetCategoryColor | src/components/TransactionsList.tsx:24-27 | the first matching category's color; white when none matches or its color is empty |
| TransactionsList.GetAccount | src/components/TransactionsList.tsx:29-32 | the first matching account, else the placeholder "Nieznane konto" without a type |
| TransactionsList.AccountCaption | src/components/TransactionsList.tsx:65 | the name, then the type label in parentheses only when there is a type |
| TransactionsList.MissingAccountCaption | src/components/TransactionsList.tsx:65 | an unknown account is captioned with the placeholder alone |
| TransactionsList.SignOf | src/components/TransactionsList.tsx:77 | "+" exactly for income, "-" for any other value |
| TransactionsList.RowOf | src/components/TransactionsList.tsx:41-79 | a row shows the transaction's name and amount, the looked-up color and account, and "+" exactly for income |
| TransactionsList.RowsOf | src/components/TransactionsList.tsx:41 | one row per transaction, in order |
| TransactionsList.SortNewestFirst | src/components/TransactionsList.tsx:40 | the caller's array, in place, becomes the stable newest-first sort of its old contents, a permutation of them |
| TransactionsList.Render | src/components/TransactionsList.tsx:36-84 | an empty list shows the notice; otherwise the array is sorted in place and rendered row by row |
| Sorting.SortInPlace | src/components/TransactionsList.tsx:40 | the array afterwards holds SortBy of its old contents |
| Sorting.SortBy | src/services/categoryService.ts:17 | the result is a permutation of the input, of the same length |
| Sorting.SortBySorted | src/services/categoryService.ts:17 | SortBy's result is sorted under any total preorder |
| Sorting.SortByKeysDistinct | src/services/transactionService.ts:9-10 | sorting a list whose keys are distinct keeps them distinct |
| Docs.Listed | src/services/transactionService.ts:34-38 | every listed document is in the collection with its fields, every document is listed, in strictly ascending id order |
| Docs.FirstWithId | src/components/TransactionsList.tsx:25 | the position of the first document with that id, or the length exactly when none has it |
| ResetPassword.PasswordProblem | src/app/reset-password/page.tsx:21-29 | a mismatch is reported exactly when the two differ; too short exactly when they match and are shorter than 6 UTF-16 code units; otherwise nothing |
| ResetPassword.Utf16Length | src/app/reset-password/page.tsx:26 | `.length` lies between the number of characters and twice it, and equals it when every character is in the Basic Multilingual Plane |
| ResetPassword.ThreeEmojiAreLongEnough | src/app/reset-password/page.tsx:26-29 | three emoji, three characters but six code units, pass the length check |
| ResetPassword.MismatchReportedFirst | src/app/reset-password/page.tsx:21-29 | a short mismatched pair reports the mismatch |
| ResetPassword.ViewOf | src/app/reset-password/page.tsx:39 | the form is offered exactly when the link has a non-empty code |
| ResetPassword.ResetPasswordPage.constructor | src/app/reset-password/page.tsx:9-15 | empty fields, no error, the link's code |
| ResetPassword.ResetPasswordPage.HandleSubmit | src/app/reset-password/page.tsx:17-37 | clears the error; on a problem sets it and makes no call; otherwise one confirm call with the code and password, and the login redirect exactly on success |
| AccountHelper.GetAccountType | src/helpers/accountHelper.ts:3-5 | "Konto bankowe" exactly for bank, "Gotówka" for any other value |
| AccountHelper.GetAccountIcon | src/helpers/accountHelper.ts:7-16 | bank and cash icons for those values, the chart for anything else |
| AccountHelper.LabelsDistinguishTypes | src/helpers/accountHelper.ts:3-16 | both helpers give different outputs for bank and cash |
| TransactionHelper.GetTransactionType | src/helpers/transactionHelper.ts:4-6 | "Przychód" exactly for income, "Wydatek" for any other value |
| TransactionHelper.LabelDeterminesType | src/helpers/transactionHelper.ts:4-6 | the label determines the type |

## Left out

- Firestore itself is not modelled: its real id generation, query planning, indexes, security rules and async/await. Ids are naturals from a counter.
- TransactionService.GetLastUserTransactions: orders transactions with equal dates by ascending id. The store breaks such ties by document name, descending, so the order among equal dates is not the store's.
- Unordered reads (`getDocs` without `orderBy`) are modelled in ascending id order.
- The time of day, time zones, JavaScript's two-digit years and timestamps are not modelled. A date is a day, and "today" is a parameter.
- TransactionService.GetMonthUserTransactions: requires a clock reading with a month in 0..11, as `Date.getMonth()` always gives.
- Amounts are integers in minor units. Floating point, NaN arithmetic, `parseFloat` in the forms and the Intl formatters (`formatBalance`, `formatDate`) are not modelled.
- TransactionService.AddTransaction: for a missing account the source computes a NaN balance; here a 0 is passed instead. The write-back is refused as NotFound in both cases, so the value never reaches the store.
- Concurrent calls are not modelled; each method runs alone. Two tabs adding to one account can lose a balance update. In AuthContext.AuthProvider, two overlapping actions can leave both banners set (one clears, the other clears, one sets success, the other sets an error), so `Valid()` holds only because actions do not overlap.
- Single remote writes other than `addTransaction` are modelled as never refused, except an update of a missing document, which is refused with `NotFound`. This covers `AccountService.AddAccount`, `AccountService.UpdateAccount`, `AccountService.DeleteAccount`, `CategoryService.AddCategory`, `CategoryService.UpdateCategory`, `CategoryService.DeleteCategory`, `TransactionService.UpdateTransaction` and `TransactionService.DeleteTransaction`. In the source each is one remote call that may also be rejected for network or permission reasons, leaving the store unchanged. Only `TransactionService.AddTransaction` takes a `Fault` parameter for that.
- AuthContext.AuthProvider.OnAuthStateChanged: writes the cookie at once. In the source it is written when the token promise resolves, which is not modelled.
- The auth provider's popups and emails, `getIdToken`, the listener's subscription mechanics and the cookie's encoding are not modelled. Only the state changes, the requests and the cookie's value and lifetime are kept.
- The reset page's two-second timer is not modelled. Only the decision to redirect is returned.
- Header.Upper: upper-cases ASCII letters only. JavaScript's `toUpperCase` also maps other scripts.
- Header.GetInitials: takes `[0]` as one Dafny character. JavaScript indexes UTF-16 code units.
- Icon lookups, the add/edit/delete modals, menu and dropdown state, page layouts and fetch wrappers are presentation and are not modelled.
- The legacy dashboard categories page and its default-category seeding loop are not modelled.
- The stored `description` line of the transaction list and its `currency` argument are not modelled. The transaction record has no `currency`.
- Next.js matcher globbing is reduced to the four listed patterns.

## Findings

| source | as written | input that shows it | evidently intended | confidence | as-written member | corrected member |
|---|---|---|---|---|---|---|
| src/components/Header.tsx:12-13 | splitting on " " keeps empty parts, and `[0]` of an empty part is undefined | " " throws a TypeError (`NaN.toUpperCase`); " ada" shows "UNDEFINEDA" | skip empty parts, so the avatar shows one or two characters | high, not executed | Header.LoneSpaceThrows | Header.GetInitialsIntended |
