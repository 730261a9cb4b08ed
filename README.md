# Expense-sharing front end: a Dafny model of its client-side logic

This project models the decision and state code of a React front end for
sharing expenses within groups. It covers:

- **API services.** The guard chains of the settlement, expense, group and
  authentication services, and how each turns a failure into the text its
  promise rejects with.
- **E-mail format.** The test the register form and the authentication
  service share, proved equal to the regular expression `^[^\s@]+@[^\s@]+\.[^\s@]+$`.
- **Session.** The `AuthProvider` session: restore on mount, `login`,
  `logout`, `isAuthenticated` and `isAdmin`, over the token, the user, the
  loading flag and the two browser storage entries.
- **Route guard.** The decision `ProtectedRoute` makes.
- **Expense form.** The "Add Expense" form: the selected members and the split
  rows kept beside them, the split-type change, the per-row edits, the split
  preview, the split validation, the submit checks and the payload.
- **Group form.** The "Create New Group" form: the admin-only user list without
  the current user, the member toggle, the name check and the payload.
- **Sign-in pages.** The register and login pages: their own checks, the call
  to the service, and the sign-in that follows.
- **Balances page.** The owing and owed totals, the person counts, the
  net-balance card and the "All Settled Up" condition.

Each service call is a function of its input and of the server's `Reply`
(`Answered(data)` or `HttpError(serverMessage, errorMessage)`). It returns
the request it sent, if any, and how its promise settled.

Pages whose handlers update component state step by step are classes. Their
fields are that state, and their methods are the handlers, with the server's
reply as a parameter. The session is the `AuthContext.AuthSession` class.
`jwtDecode` is a parameter that gives the token's claims, or `None` where the
library throws. The clock is a parameter `now`, in seconds.

JavaScript values are modelled as follows:

- An absent value (`undefined`) is `None`.
- Ids are `Key`: a number or a text. `===` is equality of `Key`s.
- Amounts are exact `real`s. `parseFloat` of the total-amount text is
  `AmountText`: empty, unreadable (`NaN`), or a number.

All sums are exact. The tolerance 0.01 of the split validation is the exact
rational 1/100.

## Model

| member | source | states |
|---|---|---|
| `Common.TrimEmptyIffAllWhitespace` | src/pages/CreateGroupPage.js:66-68 | `trim()` gives the empty string exactly when every character is ECMAScript whitespace or a line terminator, which is what the blank-name and blank-description checks test |
| `Common.Toggle` | src/pages/CreateGroupPage.js:52-58 | toggling a selected id removes every copy of it, toggling another appends it, and the count of every other id is unchanged |
| `Common.ToggleKeepsDistinct` | src/pages/CreateGroupPage.js:52-58 | a selection without repeats stays without repeats after any toggle |
| `Common.ToggleTwice` | src/pages/CreateGroupPage.js:52-58 | selecting and deselecting restores the same ids; an id that was absent is appended and removed again, so the list is exactly restored |
| `ApiTypes.ServerMessageOr` | src/api/groupService.js:13-15 | `error.response?.data?.message \|\| fallback`: a local error always yields the fallback, and a failed request yields the server's message when it is non-empty |
| `ApiTypes.ServerOrErrorMessageOr` | src/api/authService.js:24-26 | the server's message when non-empty, else the error's own message when non-empty, else the fallback; a local error gives its message, or the fallback when that is empty |
| `ApiTypes.PageErrorText` | src/pages/CreateExpensePage.js:190-193 | a page's `err.message \|\| fallback`: the page's own `Error` shows its message, and a string thrown by a service shows the page's fallback |
| `SettlementService.Check` | src/api/settlementService.js:7-20 | the first failing check, in order: a missing field (a zero amount is missing), a negative amount, paying oneself; no error exactly when every field is present, the amount is positive and the two users differ |
| `SettlementService.CreateSettlement` | src/api/settlementService.js:4-27 | the POST of the settlement is sent exactly when the checks pass, and a failed check rejects with 'Failed to create settlement'; once sent, an answered request resolves with the reply's data; a failed request rejects with the server's message when it is non-empty, otherwise with 'Failed to create settlement' |
| `SettlementService.ZeroAmountIsMissing` | src/api/settlementService.js:7-15 | a zero amount is reported as a missing field, never as a non-positive amount |
| `SettlementService.LocalMessagesNeverSurface` | src/api/settlementService.js:24-25 | no local validation text reaches the caller unless the server itself sent that text |
| `SettlementService.InvalidIsNotSent` | src/api/settlementService.js:7-25 | an invalid settlement is not sent and rejects with 'Failed to create settlement' |
| `ExpenseService.Check` | src/api/expenseService.js:7-15 | the group id is checked first, then a falsy description, total or payer (a zero total is missing), then a negative total; no error exactly when all are present and the total is positive |
| `ExpenseService.CreateExpense` | src/api/expenseService.js:4-22 | the POST to the group's expenses is sent exactly when the checks pass, and a failed check rejects with 'Failed to create expense'; once sent, an answered request resolves with the reply's data; a failed request rejects with the server's message when it is non-empty, otherwise with 'Failed to create expense' |
| `ExpenseService.GetGroupExpenses` | src/api/expenseService.js:24-35 | sent exactly when the group id is present, with page 0 and size 20 unless given, otherwise it rejects with 'Failed to fetch expenses'; once sent, an answered request resolves with the reply's data; a failed request rejects with the server's message when it is non-empty, otherwise with 'Failed to fetch expenses' |
| `ExpenseService.GetExpenseById` | src/api/expenseService.js:36-46 | sent exactly when both ids are present, otherwise it rejects with 'Failed to fetch expense'; once sent, an answered request resolves with the reply's data; a failed request rejects with the server's message when it is non-empty, otherwise with 'Failed to fetch expense' |
| `ExpenseService.GroupIdCheckedFirst` | src/api/expenseService.js:7 | a missing group id is reported whatever else is wrong |
| `ExpenseService.ZeroTotalIsMissing` | src/api/expenseService.js:8-15 | a zero total is reported as missing, so the positivity check fires only for negative totals |
| `ExpenseService.InvalidIsNotSent` | src/api/expenseService.js:7-20 | an invalid expense is not sent and rejects with 'Failed to create expense' |
| `GroupService.CreateGroup` | src/api/groupService.js:4-16 | the POST is sent exactly when the name and the creator are both truthy, otherwise it rejects with 'Failed to create group'; once sent, an answered request resolves with the reply's data; a failed request rejects with the server's message when it is non-empty, otherwise with 'Failed to create group' |
| `GroupService.GetAllGroups` | src/api/groupService.js:18-25 | always sent; an answered request resolves with the reply's data; a failed request rejects with the server's message when it is non-empty, otherwise with 'Failed to fetch groups' |
| `GroupService.GetGroupById` | src/api/groupService.js:27-35 | sent exactly when the group id is present, otherwise it rejects with 'Failed to fetch group'; once sent, an answered request resolves with the reply's data; a failed request rejects with the server's message when it is non-empty, otherwise with 'Failed to fetch group' |
| `GroupService.AddMember` | src/api/groupService.js:37-50 | sent, with the body `{userId}`, exactly when both ids are present, otherwise it rejects with 'Failed to add member'; once sent, an answered request resolves with the reply's data; a failed request rejects with the server's message when it is non-empty, otherwise with 'Failed to add member' |
| `GroupService.RemoveMember` | src/api/groupService.js:52-63 | sent exactly when both ids are present, otherwise it rejects with 'Failed to remove member'; once sent, an answered request resolves with the reply's data; a failed request rejects with the server's message when it is non-empty, otherwise with 'Failed to remove member' |
| `GroupService.RejectionsAreServerMessageOrFallback` | src/api/groupService.js:48-61 | a rejected add or remove carries the server's message exactly when the request was sent and that message is non-empty, and the operation's own fallback in every other case, local checks included |
| `EmailFormat.IndexOf` | src/api/authService.js:12-13 | the position of the first occurrence of a character |
| `EmailFormat.MatchesPattern` | src/api/authService.js:12 | a string the regular expression matches has at least 5 characters, an '@' and a '.', and no whitespace |
| `EmailFormat.EmailFormatIffPattern` | src/api/authService.js:12-15 | the direct test (no whitespace, exactly one '@' with text before it, a '.' after it with a character on each side) accepts exactly the strings the regular expression matches |
| `EmailFormat.IsEmailFormatMatches` | src/api/authService.js:12-15 | every string the direct test accepts splits into run, '@', run, '.', run |
| `EmailFormat.MatchesIsEmailFormat` | src/api/authService.js:12-15 | every string the regular expression matches passes the direct test |
| `AuthService.SessionUser` | src/pages/LoginPage.js:34-38 | the user record handed to the session is `{id: userId, email, name}` and has no role |
| `AuthService.RegisterCheck` | src/api/authService.js:7-20 | the first failing check, in order: a missing field, an e-mail the pattern does not match, a password under 6 characters; no error exactly when all hold |
| `AuthService.Register` | src/api/authService.js:4-27 | sent exactly when the checks pass; a local failure rejects with its own message; once sent, an answered request resolves with the reply's data and a failed one rejects with the server's message, else the error's own message, else 'Registration failed' |
| `AuthService.Login` | src/api/authService.js:29-41 | sent exactly when e-mail and password are non-empty, otherwise it rejects with 'Email and password are required'; once sent, an answered request resolves with the reply's data and a failed one rejects with the server's message, else the error's own message, else 'Login failed' |
| `AuthService.FormatCheckedBeforeLength` | src/api/authService.js:12-20 | a malformed e-mail with a short password is reported as a format error |
| `AuthContext.AuthSession.constructor` | src/context/AuthContext.js:15-17 | the provider starts loading with no token and no user |
| `AuthContext.AuthSession.IsAuthenticated` | src/context/AuthContext.js:75-77 | in a valid session (token and user set together) the session is authenticated exactly when the token is non-empty |
| `AuthContext.AuthSession.IsAdmin` | src/context/AuthContext.js:79-81 | the role is checked on the user alone, so in a valid session an admin is authenticated unless the token is the empty string |
| `AuthContext.AuthSession.Logout` | src/context/AuthContext.js:67-73 | token, user and both storage entries are cleared, loading is untouched, and the session is neither authenticated nor admin, so a second call changes nothing |
| `AuthContext.AuthSession.Login` | src/context/AuthContext.js:46-65 | returns true exactly when the token decodes and its `exp` is not at or before now; then token, user and both storage entries are set; otherwise nothing changes |
| `AuthContext.AuthSession.Mount` | src/context/AuthContext.js:20-44 | with both entries stored, a session whose token is still valid and whose user parses is restored, and any other is logged out; with either entry missing nothing changes; loading ends in every case |
| `AuthContext.ExpiryAtNowIsExpired` | src/context/AuthContext.js:30-52 | a token expiring exactly now is refused both at mount and at login |
| `AuthContext.MountAndLoginAgree` | src/context/AuthContext.js:30-52 | every token the mount restores, login also accepts; the converse fails only for a token without `exp` |
| `ProtectedRoute.Decide` | src/components/ProtectedRoute.js:5-33 | loading shows the loading view; otherwise an unauthenticated user goes to /login, then a non-admin goes to /dashboard when the route requires an admin, and only then are the children shown |
| `ProtectedRoute.Guard` | src/components/ProtectedRoute.js:5-33 | the children are shown only to an authenticated session that has finished loading, and on an admin route only to an admin |
| `ProtectedRoute.AdminIrrelevantByDefault` | src/components/ProtectedRoute.js:5 | without `requireAdmin`, or with it false, admin status never changes the outcome |
| `BalancesPage.ListCount` | src/pages/BalancesPage.js:84-97 | a person count is the list's length, or 0 when the list is absent |
| `BalancesPage.TotalOwing` | src/pages/BalancesPage.js:46 | 0 before the balances load; with positive lines the 'You Owe' total is non-negative and zero exactly when nobody is listed |
| `BalancesPage.TotalOwed` | src/pages/BalancesPage.js:47 | 0 before the balances load; with positive lines the 'You Are Owed' total is non-negative and zero exactly when nobody is listed |
| `BalancesPage.NetBalanceCard` | src/pages/BalancesPage.js:102-116 | '+' and 'You get back' exactly when the net is present and at least 0, otherwise '-' and 'You owe overall'; the magnitude is the net's absolute value, or 0 when it is absent |
| `BalancesPage.PositiveTotalIsZeroIffEmpty` | src/pages/BalancesPage.js:46-47 | with positive lines, a total is non-negative and is zero exactly when its list is absent or empty |
| `BalancesPage.AllSettledIffNoCounterparties` | src/pages/BalancesPage.js:181 | with positive lines, the "All Settled Up" card shows exactly when both person counts are zero |
| `BalancesPage.FailedLoadLooksSettled` | src/pages/BalancesPage.js:46-115 | without balances the totals and counts are zero, the page shows "All Settled Up", and the net card reads '-' and 'You owe overall' |
| `BalancesPage.NetCardAgreesWithTotals` | src/pages/BalancesPage.js:46-115 | when the net is owed minus owing, the card's sign says which total is larger and its magnitude is their difference |
| `CreateExpensePage.ParseFloat` | src/pages/CreateExpensePage.js:171 | the parsed total is a number exactly when the text holds one |
| `CreateExpensePage.MemberIds` | src/pages/CreateExpensePage.js:37 | the members' ids, in member order |
| `CreateExpensePage.RowIds` | src/pages/CreateExpensePage.js:86 | the split rows' user ids, in row order |
| `CreateExpensePage.BlankRow` | src/pages/CreateExpensePage.js:91-97 | a new member's row has the member's id and name and exactly the field its split type uses, set to 0 |
| `CreateExpensePage.InitialSplits` | src/pages/CreateExpensePage.js:50-69 | one row per group member in member order, each with exactly the field the split type uses, set to 0 |
| `CreateExpensePage.RemoveRows` | src/pages/CreateExpensePage.js:86 | every row of the member is removed, every other row kept, and the row ids lose exactly that id |
| `CreateExpensePage.FindMember` | src/pages/CreateExpensePage.js:89 | a member with the id and no earlier member with it: the first match, as `find` returns |
| `CreateExpensePage.ToggleRows` | src/pages/CreateExpensePage.js:83-99 | a selected member's rows are removed; another member gets a blank row for the split type appended |
| `CreateExpensePage.ToggleKeepsRowsInStep` | src/pages/CreateExpensePage.js:83-99 | when the row ids equal the selection before a toggle, they still do after it |
| `CreateExpensePage.SplitTypeChangeIgnoresSelection` | src/pages/CreateExpensePage.js:78-80 | for any group and any member deselected from the full selection, the rows rebuilt by a split-type change still hold that member, so they no longer match the selection |
| `CreateExpensePage.RebuiltRowsMatchOnlyFullSelection` | src/pages/CreateExpensePage.js:78-80 | for any group and any selection, the rows rebuilt by a split-type change match the selection exactly when every member is selected |
| `CreateExpensePage.SetSplitField` | src/pages/CreateExpensePage.js:101-107 | every row of the user gets the parsed value, or 0 when it is not a number, in the named field only; every other row and every row id is unchanged |
| `CreateExpensePage.Preview` | src/pages/CreateExpensePage.js:109-124 | one preview amount per row |
| `CreateExpensePage.PercentShare` | src/pages/CreateExpensePage.js:117-121 | a row's percentage share is present exactly when its percentage is, and counts in a sum as that percentage of the total, `(total * percentage) / 100` (0 when missing) |
| `CreateExpensePage.PreviewTotal` | src/pages/CreateExpensePage.js:385 | the preview's total is non-negative when every shown amount is, and 0 when every shown amount is 0 or missing |
| `CreateExpensePage.EqualPreviewConservesTotal` | src/pages/CreateExpensePage.js:112-114 | with as many rows as selected members, the equal preview adds up to the total |
| `CreateExpensePage.PercentagePreviewTotal` | src/pages/CreateExpensePage.js:117-121 | the percentage preview adds up to the percentages' sum taken as a percentage of the total, `(total * sum) / 100` |
| `CreateExpensePage.PercentagePreviewConservesTotal` | src/pages/CreateExpensePage.js:117-121 | percentages summing to exactly 100 make the preview add up to the total |
| `CreateExpensePage.ExactPreviewTotal` | src/pages/CreateExpensePage.js:115-116 | the exact preview adds up to the sum that the validation compares with the total |
| `CreateExpensePage.ValidateSplits` | src/pages/CreateExpensePage.js:126-142 | EXACT passes exactly when the amounts' sum is within 0.01 of the total, and PERCENTAGE when the percentages' sum is within 0.01 of 100; missing fields count as 0; EQUAL always passes |
| `CreateExpensePage.ToleranceBoundary` | src/pages/CreateExpensePage.js:131-136 | a difference of exactly 0.01 passes and one of 0.02 fails |
| `CreateExpensePage.ValidExactPreviewNearTotal` | src/pages/CreateExpensePage.js:115-131 | a validated EXACT split previews within 0.01 of the total |
| `CreateExpensePage.ValidPercentagePreviewNearTotal` | src/pages/CreateExpensePage.js:117-136 | a validated PERCENTAGE split previews within a ten-thousandth of a non-negative total |
| `CreateExpensePage.SubmitCheck` | src/pages/CreateExpensePage.js:150-166 | the first failing check, in order: a blank trimmed description, a missing or non-positive total, no member selected, a split that does not validate; no error exactly when all pass |
| `CreateExpensePage.BuildExpense` | src/pages/CreateExpensePage.js:168-184 | the payload has the description as typed, the parsed total, the payer and the split type, and one entry per row carrying its user id and only the `amount` (EXACT) or `percentage` (PERCENTAGE) |
| `CreateExpensePage.UnreadableTotalPassesFormButNotService` | src/pages/CreateExpensePage.js:155-186 | a total that is not a number passes the page's check (`NaN <= 0` is false), but the payload has no total and the service rejects it as missing |
| `CreateExpensePage.ExpenseForm.constructor` | src/pages/CreateExpensePage.js:12-24 | an empty form paid by the current user, split EQUAL, with the group still loading |
| `CreateExpensePage.ExpenseForm.FetchGroup` | src/pages/CreateExpensePage.js:31-48 | a loaded group selects every member and has one EQUAL row per member, in member order and in step with the selection; a failure shows 'Failed to load group'; loading ends either way |
| `CreateExpensePage.ExpenseForm.HandleChange` | src/pages/CreateExpensePage.js:71-81 | the named field takes the value; a new split type also rebuilds the rows from all members and leaves the selection as it was |
| `CreateExpensePage.ExpenseForm.HandleMemberToggle` | src/pages/CreateExpensePage.js:83-99 | the selection is toggled and the rows follow it, so rows in step with the selection stay in step |
| `CreateExpensePage.ExpenseForm.HandleSplitChange` | src/pages/CreateExpensePage.js:101-107 | the split inputs edit `amount` for EXACT and `percentage` for PERCENTAGE |
| `CreateExpensePage.ExpenseForm.CurrentPreview` | src/pages/CreateExpensePage.js:366-385 | the rendered preview has one amount per row, and for EQUAL with rows in step with a non-empty selection it adds up to the total |
| `CreateExpensePage.PassedFormIsSentWhen` | src/pages/CreateExpensePage.js:168-186 | once the page's checks pass, the service accepts the payload exactly when the group id, a numeric total and a payer are present |
| `CreateExpensePage.SubmitOutcome` | src/pages/CreateExpensePage.js:144-196 | a failed check shows its message (or the mismatched sums) and sends nothing; otherwise the expense is sent exactly when the group id, a numeric total and a payer are present, carrying the built payload; only an answered request navigates back to the group, and any rejection shows 'Failed to create expense' |
| `CreateExpensePage.ExpenseForm.HandleSubmit` | src/pages/CreateExpensePage.js:144-196 | the request, the navigation and the banner are those `SubmitOutcome` gives for the form's state and the reply, and loading ends |
| `CreateGroupPage.UserIds` | src/pages/CreateGroupPage.js:166-178 | the listed users' ids, in order |
| `CreateGroupPage.Candidates` | src/pages/CreateGroupPage.js:37 | the list never contains the current user and keeps every other user as often as it came |
| `CreateGroupPage.NoIdFiltersNobody` | src/pages/CreateGroupPage.js:37 | with no id for the current user, every user stays in the list |
| `CreateGroupPage.CreateGroupForm.constructor` | src/pages/CreateGroupPage.js:11-21 | an empty form with no users and no selection, loading the user list |
| `CreateGroupPage.CreateGroupForm.Mount` | src/pages/CreateGroupPage.js:23-43 | only an admin asks for the users; an answer lists them without the current user; anything else leaves the list as it was; loading ends in every case |
| `CreateGroupPage.CreateGroupForm.HandleChange` | src/pages/CreateGroupPage.js:45-50 | the named field takes the new text |
| `CreateGroupPage.CreateGroupForm.HandleUserSelect` | src/pages/CreateGroupPage.js:52-58 | the selection is toggled, and selecting a listed user keeps it free of repeats and of unlisted users |
| `CreateGroupPage.CreateGroupForm.Payload` | src/pages/CreateGroupPage.js:70-75 | the group sent has the name and description as typed, the current user as creator and the selection as member ids |
| `CreateGroupPage.CreateGroupForm.HandleSubmit` | src/pages/CreateGroupPage.js:60-87 | a blank name shows 'Group name is required' and sends nothing; otherwise the group is sent exactly when the current user has an id, success navigates to the new group, any rejection shows 'Failed to create group', the creator is never among the member ids, and loading ends |
| `RegisterPage.WithField` | src/pages/RegisterPage.js:20-25 | the named field takes the value and the others keep theirs |
| `RegisterPage.Validate` | src/pages/RegisterPage.js:34-50 | the first failing check, in order: a missing name, e-mail or password, differing passwords, a password under 6 characters, a malformed e-mail; the phone is never checked |
| `RegisterPage.PageChecksCoverService` | src/pages/RegisterPage.js:34-57 | the page accepts exactly what the service accepts with matching passwords |
| `RegisterPage.PageAndServiceOrderDiffer` | src/pages/RegisterPage.js:42-50 | a short password with a malformed e-mail is a length error on the page and a format error in the service |
| `RegisterPage.RegisterForm.constructor` | src/pages/RegisterPage.js:7-15 | all fields empty, no error, not loading |
| `RegisterPage.RegisterForm.HandleChange` | src/pages/RegisterPage.js:20-25 | the named field takes the new text |
| `RegisterPage.RegisterForm.HandleSubmit` | src/pages/RegisterPage.js:27-77 | a failed page check shows its message and changes no session; otherwise the user is registered with the phone passed through; only a session that accepts the new token navigates to /dashboard, and it is then never an admin; a refused token shows 'Registration successful but login failed'; a rejection shows 'Registration failed. Please try again.'; loading ends |
| `LoginPage.PageAndServiceAgreeOnInput` | src/pages/LoginPage.js:22-26 | the page refuses exactly the input the service would refuse |
| `LoginPage.LoginForm.constructor` | src/pages/LoginPage.js:7-10 | empty fields, no error, not loading |
| `LoginPage.LoginForm.SetEmail` | src/pages/LoginPage.js:71 | the e-mail field takes the new text |
| `LoginPage.LoginForm.SetPassword` | src/pages/LoginPage.js:86 | the password field takes the new text |
| `LoginPage.LoginForm.HandleSubmit` | src/pages/LoginPage.js:15-51 | missing input sends nothing; a reply without a token or user id shows 'Invalid server response'; a token the session refuses shows 'Failed to authenticate'; a rejection shows 'Login failed. Please try again.'; only an accepted token stores exactly `{id: userId, email, name}` and navigates to /dashboard; loading ends in every case |

## Left out

- HTTP transport is not modelled: the axios client, its interceptors, the
  bearer header, the 401 redirect and the 403 alert. A request is a value
  and the server's reply is an input.
- The balance and user services are thin id-guarded GET wrappers and are not
  part of this model. The user list's reply is an input of
  `CreateGroupForm.Mount`, and the balances object is the input of the
  balances functions.
- Fetching the balances (src/pages/BalancesPage.js:19-31) is not modelled:
  it only stores the reply or an error text.
- Rendering, styles, the routing table and the pages that only display
  server data are not modelled: dashboard, profile, group list and group
  detail. This includes `toFixed(2)` formatting. The split-validation
  messages are kept as the sums they print (`SplitError`), not as text.
- Ledger aggregation, debt simplification and the per-split amounts owed are
  computed by the server and are not part of this model.
- IEEE floating point is not modelled. In particular an EQUAL preview with no
  member selected divides by zero, and the model gives no amount (`None`)
  instead of `Infinity` or `NaN`. The page does not render the preview then.
- BalancesPage.NetBalanceCard treats an absent net as JavaScript
  `undefined`. A JSON `null` net compares `>= 0` as true in JavaScript and is
  not distinguished here.
- AuthService.RegisterCheck and `RegisterPage.Validate` count password
  length in characters, while JavaScript counts UTF-16 code units.
- The stored user's JSON round trip is not modelled: the storage entry holds
  the user record itself, or an entry that does not parse.
- async ordering, `Promise.all` and React's batching of state updates are
  not modelled. Each handler runs to completion on the state it started from.
- CreateExpensePage.ExpenseForm.HandleMemberToggle requires the id to be a
  group member. The page calls it only from the member list; with any other
  id the source throws after queueing the new selection.
- The member row of the expense form has both a checkbox `onChange` and a
  row `onClick` that toggle the same member
  (src/pages/CreateExpensePage.js:318-323). A single toggle per event is
  modelled.
- CreateExpensePage.ExpenseForm.HandleChange requires a loaded group for a
  split-type change; before the group loads the source throws.
- The payer select stores its value as text, while the initial payer is the
  user's id. `Key` keeps both forms apart, and the model does not merge them.
- CreateExpensePage.ExpenseForm.FetchGroup takes the group's member list as
  the reply. A reply without `members` fails in the source and is not
  modelled.
- CreateGroupPage.CreateGroupForm.HandleSubmit takes the new group's id as
  the reply; the rest of the created group is not used.
- The session's mount effect restores a token only when its `exp` is later
  than now, and `login` refuses one only when its `exp` is at or before now.
  A token without `exp` is therefore accepted by `login` but not restored on
  mount. The model follows the code here.
- The services' refusals with their own texts (for example 'Missing required
  settlement fields') are modelled as local failures. Except in the
  authentication service, they never reach the caller.
- Console logging and `window.alert` are not modelled.
