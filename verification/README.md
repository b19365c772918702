# Inventory dashboard: a Dafny model of its client logic

The system is a Next.js inventory dashboard. Signed-in users see a table of
products. Administrators can also create, edit and delete products through a
modal form. The server is a plain JSON resource store. All logic worth stating
precisely runs in the browser, and this project models four pieces of it as
immutable records plus pure transition functions:

- `ProductTable` (`product_table.dfy`): the stock-status badge, the empty state, and the rows.
  Only administrators get the Actions column and the Edit/Delete controls.
- `ProductModal` (`product_modal.dfy`): the product form.
  - Per-field validation.
  - The normalised payload handed to `onSave`, and the `isSubmitting` flag.
  - The edit handler that clears a field's error.
  - The two effects that prefill or reset the form.
- `Auth` (`auth_context.dfy`): the session store.
  - Login is a first-match search over the `/users` list.
  - Logout.
  - Start-up restore from local storage, which drops a corrupt record.
- `Dashboard` (`dashboard.dfy`): the page controller.
  - A state machine over the product list, the loading flag, the modal flag and the edit target.
  - The redirect rule.
  - What the page draws for a given user.

Supporting modules:

- `Text` (`text.dfy`) models ECMAScript's `String.prototype.trim`.
- `Api` (`api.dfy`) holds the `Product` record and the four request kinds.
- `Wrappers` (`wrappers.dfy`) holds `Option`.

Everything the source takes from the outside world is a parameter:

- network outcomes: `Option` for a list that may have failed, `bool` for a write that may have thrown;
- the answer to `confirm()`;
- `parseFloat`, `parseInt` and `toString` on numbers, as fields of `ProductModal.NumberCodec`;
- `JSON.stringify` and `JSON.parse` on the session user, as fields of `Auth.JsonCodec`.

Where a property depends on one of these functions behaving as JavaScript
promises, that promise is stated as a predicate about the values at hand and
required by the lemma. JavaScript does not give it for every value, so no
lemma asks for it universally:

- `ProductModal.ParsesBack(c, price, quantity)`: the text of this price and of this quantity is not empty and parses back to the same number. It fails, for instance, for a quantity of 1e21, whose text "1e+21" `parseInt` reads as 1.
- `Auth.Restores(c, u)`: this user's JSON text is not empty and parses back to the same user. JavaScript gives it for every user read from the `/users` response, since `JSON.stringify` then `JSON.parse` restores every finite number exactly. It can fail only for an `int` id that no JavaScript number can hold, which the model's unbounded `id` admits.

Behaviour of the code worth knowing, which the model follows as written:

- Stock levels are meant as a three-way classification of quantities that are not negative: 0 is Out of Stock, 1 to 9 is Low Stock, 10 and above is In Stock. The code checks zero first and then `< 10`, so negative quantities are "Low Stock" too. `ProductTable.StatusMatchesReference` proves the two agree on every quantity that is not negative, and it states the negative case separately.
- The table passes the id straight to `onDelete`. The `confirm()` prompt is in the dashboard's `handleDeleteProduct`, and the model puts it there.
- `login` calls `setUser` before `localStorage.setItem`. If the write throws, the `catch` returns false with the user already signed in and nothing stored. `Auth.Login` takes the write's outcome as a parameter, and `Auth.FailedWriteBreaksAgreement` shows the resulting mismatch between memory and storage.
- `handleInputChange` does not remove a field's error. It sets the message to the empty string, which the form treats as "no error". `ProductModal.EditField` keeps the key with an empty message.
- `checkAuth` only looks at a stored value that is truthy. An empty stored string is left in place and yields no user.
- On a parse failure, `checkAuth` removes the key and leaves the user as it was. At start-up the user is null.
- `handleSaveProduct` closes the modal after every successful write, even if the following reload fails. `loadProducts` swallows its own errors.
- Opening the form for an existing product prefills the fields but keeps the errors of any earlier session. Only opening it with no product resets the errors. `ProductModal.OpenForEditPrefills` states this as written.

## Model

| member | source | states |
|---|---|---|
| Text.SkipForward | components/ProductModal.tsx:50 | the scan stops at the first non-whitespace position at or after the start, or at the end. Everything it skipped is whitespace. |
| Text.SkipBackward | components/ProductModal.tsx:50 | the scan stops just after the last non-whitespace character of the range, or at its start. Everything it skipped is whitespace. |
| Text.Trim | components/ProductModal.tsx:50 | the result has no whitespace at either end, and it is empty exactly when the input is all whitespace |
| Text.TrimCutsOnlyWhitespace | components/ProductModal.tsx:50 | the result is the input between the two cuts, and only whitespace lies outside them |
| Text.TrimmedIsFixpoint | components/ProductModal.tsx:78 | a string with no whitespace at either end is its own trim |
| Text.TrimIdempotent | components/ProductModal.tsx:78 | trimming a trimmed name changes nothing |
| ProductTable.GetStockStatus | components/ProductTable.tsx:23-27 | quantity 0 gives Out of Stock/destructive. Any other quantity below 10, negative ones included, gives Low Stock/secondary. 10 and above gives In Stock/default. The badge reads "Out of Stock", "Low Stock" or "In Stock" accordingly. Each holds in both directions. |
| ProductTable.StatusMatchesReference | components/ProductTable.tsx:23-27 | on quantities that are not negative, the badge level is the three-way classification: 0 Out of Stock, 1 to 9 Low Stock, 10 and above In Stock. Negative quantities are Low Stock. |
| ProductTable.StatusMonotone | components/ProductTable.tsx:24-26 | among quantities that are not negative, more stock never gives a lower badge. 9 is Low Stock and 10 is In Stock. Below zero the order breaks: -1 ranks above 0. |
| ProductTable.Rows | components/ProductTable.tsx:55-99 | there is one row per product, in input order. Each row shows the product's id as key, its name, price, quantity and badge, and the total `price * quantity`. It has actions iff `isAdmin`, and they carry the product and its id. |
| ProductTable.Render | components/ProductTable.tsx:29-58 | the empty state appears iff the list is empty. Its message is the "add your first product" prompt iff `isAdmin`, and "No products are currently available." otherwise. Otherwise the table has the Actions header iff `isAdmin`, and its rows are as in `Rows`. |
| ProductTable.VisitorSeesNoActions | components/ProductTable.tsx:51 | without `isAdmin` there is no Actions header and no row exposes a callback |
| ProductTable.AdminActionsTargetTheirRow | components/ProductTable.tsx:76-99 | for an admin, row `i`'s Edit passes product `i` whole and its Delete passes exactly that product's id |
| ProductModal.Validate | components/ProductModal.tsx:47-62 | there is a name error iff the name is blank. There is a price error iff the text is empty, does not parse, or parses to a value at or below 0. There is a quantity error iff the text is empty, does not parse, or parses below 0. Each error carries its fixed, non-empty message. |
| ProductModal.ValidateForm | components/ProductModal.tsx:47-66 | the whole error record is replaced by the one `Validate` builds from the fields, with its fixed messages. The result is true iff the new record has no keys, iff all three fields are acceptable. The fields are untouched. |
| ProductModal.BeginSubmit | components/ProductModal.tsx:68-81 | saving starts iff validation passes. Only then does `isSubmitting` rise. The payload is the trimmed name and the parsed price and quantity. The name is non-empty and trimmed, the price is positive and the quantity is not negative. |
| ProductModal.FinishSubmit | components/ProductModal.tsx:84-86 | `isSubmitting` drops whether `onSave` resolved or threw. Fields and errors are kept. |
| ProductModal.SubmitCycle | components/ProductModal.tsx:75-86 | `isSubmitting` is up while `onSave` runs. Afterwards the fields are those submitted, there are no errors and `isSubmitting` is down, whether `onSave` resolved or threw. |
| ProductModal.EditField | components/ProductModal.tsx:89-94 | only the edited field's text changes. Its error is blanked only if one was showing, and other errors are kept. |
| ProductModal.EditKeepsOtherVerdicts | components/ProductModal.tsx:89-94 | editing one field never changes whether another field passes validation |
| ProductModal.PrefillEffect | components/ProductModal.tsx:31-45 | a product fills the fields with its name and the `toString` text of its price and quantity, and when those texts parse back they give its price and quantity. No product empties the fields. Errors and `isSubmitting` are untouched. |
| ProductModal.ResetEffect | components/ProductModal.tsx:96-105 | an open form with no product gets empty fields and an error record with no keys. Otherwise nothing changes. |
| ProductModal.OpenForAddResets | components/ProductModal.tsx:96-105 | opening the form for a new product, with effects fired by changed dependencies, gives blank fields and no errors |
| ProductModal.OpenForEditPrefills | components/ProductModal.tsx:31-45 | opening the form for a product gives its values and keeps earlier errors |
| ProductModal.AfterPropsChange | components/ProductModal.tsx:31-105 | the prefill runs exactly when the product prop changed: a new product fills its values, a cleared one empties the fields. When the props changed and the form is open with no product, the fields are blanked and the errors reset; otherwise the errors are kept. `isSubmitting` is kept. |
| ProductModal.PrefillThenSubmit | components/ProductModal.tsx:31-81 | for any product, submitting the prefilled form saves iff its name is not blank and the texts of its price and quantity pass validation. When it saves, the payload is exactly the product's fields iff the name is already trimmed and both numbers parse back from their text. |
| ProductModal.PrefillThenSubmitRoundTrips | components/ProductModal.tsx:31-81 | for a product with a non-empty trimmed name, a positive price and a quantity that is not negative, whose numbers parse back from their text, prefill then submit validates and sends exactly its fields |
| ProductModal.SavedProductResubmitsUnchanged | components/ProductModal.tsx:77-81 | a product built from a submitted payload whose numbers parse back from their text re-submits the same payload when edited unchanged |
| Auth.FindAccount | contexts/AuthContext.tsx:62-64 | the result is the first position whose username and password both match exactly. There is none iff no account matches. |
| Auth.ToUser | contexts/AuthContext.tsx:67-72 | the session record keeps id, username, role and full name, and has no password |
| Auth.Login | contexts/AuthContext.tsx:53-82 | login succeeds iff the list arrived, some account matches and the storage write went through. On a match, the user becomes the first match without its password, and the same record is stored under "user" iff the write went through. A match whose write threw returns false with the user set and storage unchanged. On a failed request or no match, nothing changes. |
| Auth.Logout | contexts/AuthContext.tsx:84-87 | there is no user and no stored "user" key afterwards. Other keys are kept. |
| Auth.CheckAuth | contexts/AuthContext.tsx:34-46 | loading always ends. A stored value that parses becomes the user. One that does not parse is removed. An absent or empty value changes nothing. |
| Auth.LoginLogoutAgree | contexts/AuthContext.tsx:73-87 | logout and a successful login make the stored record equal the in-memory user. A login whose storage write went through preserves that agreement, whatever its result. |
| Auth.FailedWriteBreaksAgreement | contexts/AuthContext.tsx:73-81 | when the credentials match but the storage write throws and nothing was stored before, login returns false yet leaves a user in memory that storage does not hold |
| Auth.CheckAuthKeepsAgreement | contexts/AuthContext.tsx:34-46 | restoring from an agreeing state whose user's JSON parses back keeps the user and the agreement |
| Auth.LoginSurvivesReload | contexts/AuthContext.tsx:36-74 | a user stored by a successful login, whose JSON parses back, is restored unchanged by a fresh start-up |
| Auth.CorruptRecordIsDropped | contexts/AuthContext.tsx:41-45 | at start-up, a stored value that does not parse is removed. The user stays null and loading ends. |
| Dashboard.LoadProducts | app/dashboard/page.tsx:32-42 | one list request is made. Products are replaced on success and kept on failure. Loading is false afterwards. The modal is untouched. |
| Dashboard.SaveRequest | app/dashboard/page.tsx:51-55 | an update of the edit target's id if there is one, otherwise a create, always with the form's payload |
| Dashboard.SaveProduct | app/dashboard/page.tsx:49-62 | exactly one write is made, chosen by the edit target. On success, a reload follows, the modal closes and the target is cleared. On failure, the state is unchanged and there is no reload. |
| Dashboard.DeleteProduct | app/dashboard/page.tsx:69-78 | without confirmation nothing happens. With it, the delete request is sent, and a reload follows only if the delete succeeded. The modal is untouched. |
| Dashboard.EditProduct | app/dashboard/page.tsx:64-67 | the edit target becomes the product and the modal opens |
| Dashboard.AddProduct | app/dashboard/page.tsx:80-83 | the edit target becomes null and the modal opens |
| Dashboard.CloseModal | app/dashboard/page.tsx:194-197 | the modal closes and the edit target is cleared |
| Dashboard.TransitionsKeepConsistency | app/dashboard/page.tsx:49-83 | every transition, starting from the initial state, keeps a closed modal free of an edit target |
| Dashboard.Render | app/dashboard/page.tsx:85-199 | the page shows a spinner iff auth is loading or there is no user. The Add button shows iff the role is admin. The table appears iff products are not loading, and it gets the same admin flag. The modal gets the open flag and the edit target. |
| Dashboard.ShouldRedirect | app/dashboard/page.tsx:22-26 | the redirect fires iff auth has loaded and there is no user: never while loading, only while the page draws the spinner, and once auth has loaded without a redirect the page draws the board |
| Dashboard.RedirectAfterRestore | app/dashboard/page.tsx:22-26 | after start-up restore, the redirect fires iff no user came back. A redirecting page never draws the board. |
| Dashboard.LogoutRedirects | app/dashboard/page.tsx:44-47 | after logout, the redirect effect fires exactly when auth has finished loading |
| Dashboard.AdminControlsAgree | app/dashboard/page.tsx:164-183 | the Add button, the Actions header and every row's controls are present together, exactly for admins |
| Dashboard.RowButtonsReachTheirProduct | app/dashboard/page.tsx:64-78 | Edit in row `i` and then save updates product `i`'s id. Delete in row `i`, once confirmed, deletes product `i`'s id. |
| Dashboard.AddThenSaveCreates | app/dashboard/page.tsx:49-83 | after Add, a successful save creates and then reloads. A failed save leaves the modal open with no target. |
| Dashboard.OpenedFormMatchesTarget | app/dashboard/page.tsx:192-199 | from a closed board, Add shows a blank form with no errors, and Edit shows the product's values |

## Left out

- Request functions of lib/api.ts (`fetch`, headers, JSON bodies): only their outcomes are modelled, as parameters of the dashboard handlers. `Api.Request` records which requests are issued and in what order.
- `formatCurrency` (lib/api.ts:57-63) delegates to `Intl.NumberFormat`. Rows carry the numeric price and total instead of formatted text.
- Exact `parseFloat`/`parseInt`/`toString` semantics and floating point. Prices are `real`, quantities `int`, and parsing is the caller-supplied `NumberCodec`. For example, `parseInt("1.5")` being 1 is whatever the codec says.
- `JSON.parse` of values that are not user records (such as `"null"` or `"42"`). `Auth.JsonCodec.parse` yields a user or fails.
- The 100 ms `setTimeout` before `checkAuth` and the effect's timer cleanup: `CheckAuth` is the callback's body.
- Async interleaving: the intermediate `isLoading = true` of a reload and races between concurrent requests. Each handler is one atomic step.
- React effect scheduling: `ProductModal.AfterPropsChange` compares props by value, where React compares the product by reference.
- Routing: the redirect is the boolean `Dashboard.ShouldRedirect`, not a navigation. The `router.push('/signin')` inside `handleLogout` (app/dashboard/page.tsx:46) is not modelled; `Dashboard.LogoutRedirects` speaks of the redirect effect only.
- JSX markup, styling, icons, the `useAuth` guard for a missing provider, and app/layout.tsx, which only wraps the page in the provider.
