# NextSupaStarter logic core in Dafny

This project models the parts of the NextSupaStarter recipe template that carry
decisions rather than markup:

- the health endpoint `GET /api/health`, which probes the database and the auth
  service and derives per-check statuses, an overall status, a message and an
  HTTP code (`health_route.dfy`);
- the status page's styling of status strings and its rendering of the
  environment flags (`health_page.dfy`);
- the uniform API response builders and the classification of a caught error
  into a response (`api_helpers.dfy`, with the thrown-value model in
  `js_errors.dfy`);
- the recipe list's `formatTime` and `getDifficultyStars` (`recipe_list_page.dfy`);
- the new-recipe form: the ingredient and instruction list helpers and the
  editing invariant they keep (`recipe_draft.dfy`), and `handleSubmit`, which
  filters blank entries, builds the insert rows and sends the inserts to the
  database in order, stopping at the first failure (`recipe_submit.dfy`).

The JavaScript string behaviour these rely on (`trim`, `includes`,
`startsWith`, `repeat`, printing an integer, `parseInt` with no radix) is
modelled in `text.dfy`. `wrappers.dfy` holds the `Option` type.

Remote calls are inputs or an abstract store. A health probe is a `Probe`: it
returned, with or without an error message, or it threw. The database and auth
service behind `handleSubmit` form the `Backend` class: the three tables as
sequences, the signed-in user, the set of tables whose inserts the service
refuses, and a log of the insert requests in the order they were sent.

`GET` and `handleSubmit` are written imperatively. `GET` assigns the checks
branch by branch, then the overall status. `handleSubmit` is a chain of inserts
with early returns. `HandleSubmit`'s contract ties the new store to the pure
function `Submit`, and lemmas prove what `Submit` promises. Everything else is
pure functions and lemmas.

Two places in the code point in opposite directions. The model follows what
the code does:

- **The health endpoint never reports `degraded`.** The route has a `degraded`
  branch and a message for it (src/app/api/health/route.ts:101-102, 145-146).
  But `isConfigured` is already false whenever a check is `error`, so any probe
  error gives `unhealthy` and 500 before that branch is reached
  (src/app/api/health/route.ts:90-98). `HealthRoute.Get` proves the branch
  unreachable.
- **Saving does not renumber the steps.** The editor numbers steps by position
  when adding and removing them (src/app/recipes/new/page.tsx:87, 93). Saving
  passes each kept step's own number through unchanged
  (src/app/recipes/new/page.tsx:162), so a blank middle step leaves a gap in
  the stored numbers. `RecipeSubmit.BlankStepLeavesGap` and
  `RecipeSubmit.SavedStepsFollowPositions` prove this.

The end-to-end test expects the health status `ok` at
tests/auth-flow.spec.ts:116. The route can never return `ok` as an overall
status (`HealthRoute.Get` ensures the status is one of the four `Overall`
values).

## Model

| member | source | states |
|---|---|---|
| HealthRoute.Get | src/app/api/health/route.ts:11-137 | Missing URL or anon key: both checks `not_configured` with the guidance text, overall `not_configured`, 200. Database check: `ok` with no error or a missing-dummy-table message, else `error` with that message. Auth check: `error` with its message exactly when the session call errs. A thrown probe: both checks `error` with the exception's message. No check stays `unknown`. Overall: `unhealthy` iff some check is `error`, `healthy` iff both flags are set and both checks `ok`, never `degraded`. Code 500 iff `unhealthy`, else 200. The outer catch answers `unhealthy`, the system error text and 500. |
| HealthRoute.StatusMessage | src/app/api/health/route.ts:141-154 | Each of the four overall status names gets its own message, and every other string gets the unknown-status text. |
| HealthRoute.StatusMessagesDistinct | src/app/api/health/route.ts:141-154 | Each of the four overall statuses gets its own message, never the unknown-status fallback. |
| HealthPage.StatusColor | src/app/health/page.tsx:55-71 | Green exactly for `healthy` and `ok`, yellow for `degraded`, red for `unhealthy` and `error`, blue for `not_configured` and `unknown`, gray for every other string. |
| HealthPage.StatusIcon | src/app/health/page.tsx:73-89 | ✅, ⚠️, ❌ and 🔧 exactly for the same four groups, and ❓ for every other string. |
| HealthPage.ColorClassesAreTones | src/app/health/page.tsx:55-71 | Two statuses get the same colour class exactly when they fall in the same group: {healthy, ok}, {degraded}, {unhealthy, error}, {not_configured, unknown}, or anything else. |
| HealthPage.IconClassesAreTones | src/app/health/page.tsx:73-89 | Two statuses get the same icon exactly when they fall in the same one of those five groups. |
| HealthPage.ColorMatchesIcon | src/app/health/page.tsx:55-89 | Two statuses share a colour exactly when they share an icon. |
| HealthPage.UnlistedStatusIsGray | src/app/health/page.tsx:68-69 | A string outside the eight listed statuses gets the gray style and the question-mark icon. |
| HealthPage.RouteStatusesAreListed | src/app/health/page.tsx:55-89 | Every overall and check status the endpoint emits falls in a listed group, never the fallback. |
| HealthPage.EnvValueText | src/app/health/page.tsx:213 | A flag reads "✅ 設定済み" when true and "❌ 未設定" when false; any other value is shown as it is. |
| HealthPage.EnvValueColor | src/app/health/page.tsx:212 | Green exactly for `true`, red exactly for `false`, blue exactly for a non-boolean value. |
| HealthPage.EnvironmentEntries | src/app/health/page.tsx:209 | The entries are `NEXT_PUBLIC_SUPABASE_URL`, `NEXT_PUBLIC_SUPABASE_ANON_KEY` and `SUPABASE_SERVICE_ROLE_KEY` with the route's three flags, in that order, then `NODE_ENV` with the mode exactly when it is defined. The keys are distinct. |
| HealthPage.EnvironmentRowsReflectFlags | src/app/health/page.tsx:209-216 | Three or four rows. Each flag row names its variable and shows "✅ 設定済み" in green when the route saw it set, "❌ 未設定" in red otherwise. The mode row shows the mode verbatim in blue. |
| JsErrors.MessageOr | src/app/api/health/route.ts:75 | An `Error` gives its own message; any other thrown value gives the fallback text. |
| ApiHelpers.CreateApiResponse | src/lib/api-helpers.ts:33-46 | `success` is true, data and message are the given ones, there is no error, and the status defaults to 200. |
| ApiHelpers.CreateApiError | src/lib/api-helpers.ts:51-64 | `success` is false, the error text and data are the given ones, and the status defaults to 500. |
| ApiHelpers.CreateValidationError | src/lib/api-helpers.ts:104-106 | A failure with status 400 carrying the given message. |
| ApiHelpers.CreateUnauthorizedError | src/lib/api-helpers.ts:111-113 | A failure with status 401, with the default authentication text when no message is given. |
| ApiHelpers.CreateForbiddenError | src/lib/api-helpers.ts:118-120 | A failure with status 403, with the default permission text when no message is given. |
| ApiHelpers.CreateNotFoundError | src/lib/api-helpers.ts:125-127 | A failure with status 404, with the default not-found text when no message is given. |
| ApiHelpers.HandleApiError | src/lib/api-helpers.ts:69-99 | Always a failure with an error text and no data. The status is in {400, 401, 403, 404, 500}. 500 exactly for an uncoded or non-`Error` value. 401 exactly for a coded error with code `PGRST301` or "JWT" in its message. 403 exactly when 401 does not apply and the code starts with `42501` or the message holds "permission". 404 exactly when neither applies and the code is `PGRST116`. A 400, or a 500 for an `Error`, carries the error's own message. |
| ApiHelpers.ClassifiedErrorsMatchBuilders | src/lib/api-helpers.ts:78-92 | The 401, 403 and 404 responses equal the fixed builders' responses with default texts; the 400 response equals the validation builder's with the error's message. |
| ApiHelpers.JwtAnywhereIsUnauthorized | src/lib/api-helpers.ts:78-80 | A coded error with "JWT" at any position of its message is a 401, whatever its code. |
| ApiHelpers.PermissionAnywhereIsForbidden | src/lib/api-helpers.ts:83-85 | Without an authentication match, "permission" anywhere in the message makes a coded error a 403, even with code `PGRST116`. |
| RecipeListPage.DifficultyStars | src/app/recipes/page.client.tsx:74-76 | For a difficulty d in 0..5: five characters, the first d filled stars and the rest empty stars. |
| RecipeListPage.StarsCountDifficulty | src/app/recipes/page.client.tsx:74-76 | Counting the filled stars gives d back, and the empty stars number 5 − d. |
| RecipeListPage.FormatTime | src/app/recipes/page.client.tsx:78-80 | `null` and 0 give "-". A non-zero value below 60, negatives included, gives the number followed by 分. |
| RecipeListPage.FormatTimeHours | src/app/recipes/page.client.tsx:81-83 | From 60 on: h = m div 60 ≥ 1 and 0 ≤ r = m mod 60 < 60 with h·60 + r = m. The text is h and 時間, then r and 分 only when r is non-zero. |
| RecipeListPage.FormatTimeRoundTrip | src/app/recipes/page.client.tsx:78-84 | Every number of minutes reads back from its text, so the text loses nothing; 0 and `null` share "-". |
| RecipeDraft.AddIngredient | src/app/recipes/new/page.tsx:69-71 | Appends one blank ingredient and leaves the others unchanged. |
| RecipeDraft.RemoveIngredient | src/app/recipes/new/page.tsx:73-75 | Removes position i and keeps the rest in order; an index out of range changes nothing. |
| RecipeDraft.WithoutIndexSlices | src/app/recipes/new/page.tsx:74 | Filtering out index i leaves the entries before i followed by those after it; an index out of range leaves the list unchanged. |
| RecipeDraft.UpdateIngredient | src/app/recipes/new/page.tsx:77-82 | The length is kept. Only the named field of the entry at the index changes: it gets the value and the other fields keep theirs. Every other entry is unchanged. |
| RecipeDraft.AddInstruction | src/app/recipes/new/page.tsx:84-89 | Appends a blank step numbered old length + 1 and leaves the others unchanged. Positional numbering is kept. |
| RecipeDraft.Renumber | src/app/recipes/new/page.tsx:93 | Same length; each entry keeps its contents and gets number position + 1. |
| RecipeDraft.RemoveInstruction | src/app/recipes/new/page.tsx:91-95 | The other steps keep their order and contents and are numbered 1..n−1, whatever their numbers were before. |
| RecipeDraft.UpdateInstruction | src/app/recipes/new/page.tsx:97-102 | The length is kept. Only the named field of the entry at the index changes. Editing the description or the timer keeps positional numbering. |
| RecipeDraft.EditingKeepsInvariant | src/app/recipes/new/page.tsx:69-102 | Any run of adds, guarded removes and field edits keeps both lists non-empty and the steps numbered by position. |
| RecipeDraft.EditsFromInitialDraftKeepInvariant | src/app/recipes/new/page.tsx:44-49 | Starting from the initial one-entry lists, after any run of edits both lists are non-empty and step k is numbered k + 1. |
| RecipeSubmit.FilterSelectsKept | src/app/recipes/new/page.tsx:137 | A filter keeps exactly the accepted entries, in their original order: its j-th result is the entry at the j-th accepted position. |
| RecipeSubmit.TrimmedTextIsFilled | src/app/recipes/new/page.tsx:137 | An entry passes the filter exactly when its trimmed name or description is non-empty. |
| RecipeSubmit.RecipeColumns | src/app/recipes/new/page.tsx:118-130 | All eleven columns: the user, title and public flag as given. Description, category, image URL and notes as typed, with an empty one as `null`. Prep and cook time `null` when empty, else `parseInt` of the text. Servings and difficulty are `parseInt` of the text. NaN is `null`. A number typed as plain digits is stored as its decimal value. |
| RecipeSubmit.IngredientRows | src/app/recipes/new/page.tsx:142-148 | One row per kept ingredient, in order. Each row has the recipe's id, `order_index` equal to its position, the name as typed, and amount and unit as typed or `null` when empty. |
| RecipeSubmit.InstructionRows | src/app/recipes/new/page.tsx:160-165 | One row per kept step, in order. Each row has the recipe's id, the step's own number and description, and its timer, with 0 stored as `null`. |
| RecipeSubmit.IngredientRowsSelectNamed | src/app/recipes/new/page.tsx:137-148 | The ingredient rows are exactly the entries whose name is not all whitespace, in order, with `order_index` 0..k−1, the recipe's id, the name kept, and amount and unit stored as typed, an empty one as `null`. |
| RecipeSubmit.InstructionRowsSelectDescribed | src/app/recipes/new/page.tsx:155-165 | The instruction rows are exactly the entries whose description is not all whitespace, in order, each keeping its own step number and description. The timer is stored as given, with 0 as `null`. |
| RecipeSubmit.SavedStepsFollowPositions | src/app/recipes/new/page.tsx:155-165 | From positionally numbered steps, each saved step number is its kept position + 1, so saved numbers strictly increase. |
| RecipeSubmit.NoBlankStepsKeepNumbering | src/app/recipes/new/page.tsx:155-165 | With no blank step, the saved steps are numbered 1..n. |
| RecipeSubmit.BlankIngredientDropped | src/app/recipes/new/page.tsx:137-148 | A blank ingredient between two named ones is dropped and the order indices close up to 0 and 1. |
| RecipeSubmit.BlankStepLeavesGap | src/app/recipes/new/page.tsx:155-165 | From steps 1, 2, 3 with a blank middle step, the saved steps are numbered 1 and 3. |
| RecipeSubmit.PlannedInserts | src/app/recipes/new/page.tsx:116-169 | The recipe insert comes first. An ingredient or instruction insert is planned exactly when that list has a filled entry. |
| RecipeSubmit.Attempted | src/app/recipes/new/page.tsx:134-168 | The inserts sent are a prefix of the plan, and none before the last was refused. When the prefix stops short of the whole plan, its last insert was refused. |
| RecipeSubmit.RecipeInsertComesFirst | src/app/recipes/new/page.tsx:116-169 | The recipe insert is always sent first; when it is refused it is the only one; a child insert is sent only for a list with a filled entry. |
| RecipeSubmit.ChildSubmission | src/app/recipes/new/page.tsx:136-171 | After the recipe row: no recipe row is added. The page shows the recipe exactly when no planned child insert is refused, and alerts otherwise. Each child table gains all of its built rows or none. |
| RecipeSubmit.Submit | src/app/recipes/new/page.tsx:109-174 | The page goes to the login exactly when there is no user, and then nothing is sent or stored. At most one recipe row is added. |
| RecipeSubmit.ChildSubmissionSendsPlan | src/app/recipes/new/page.tsx:136-169 | After the recipe row, the child inserts are sent up to and including the first refused one. |
| RecipeSubmit.SubmitSendsPlanUntilRefusal | src/app/recipes/new/page.tsx:109-169 | With a user, the inserts sent are the planned ones up to and including the first refused one. Without a user nothing is sent. |
| RecipeSubmit.SubmitShowsRecipeIffAllSaved | src/app/recipes/new/page.tsx:109-174 | Without a user the page goes to the login. With one, it shows the recipe exactly when no planned insert is refused, and alerts otherwise. |
| RecipeSubmit.SubmitStoresAcceptedRows | src/app/recipes/new/page.tsx:116-169 | Each table gains rows exactly when its insert was sent and not refused: the recipe row with the form's fields, and the rows built from the filled entries. |
| RecipeSubmit.Backend.InsertRecipe | src/app/recipes/new/page.tsx:116-134 | Logs one recipe insert. If refused, nothing is stored. Otherwise it stores and returns a row with the next id, and only the recipe table changes. |
| RecipeSubmit.Backend.InsertIngredients | src/app/recipes/new/page.tsx:139-151 | Logs one ingredient insert and stores all its rows or none; only the ingredient table changes. |
| RecipeSubmit.Backend.InsertInstructions | src/app/recipes/new/page.tsx:157-168 | Logs one instruction insert and stores all its rows or none; only the instruction table changes. |
| RecipeSubmit.SaveChildren | src/app/recipes/new/page.tsx:136-171 | The child tables and the request log change as `ChildSubmission` says. Every stored row still refers to a stored recipe. |
| RecipeSubmit.SaveRecipe | src/app/recipes/new/page.tsx:116-171 | For a signed-in user, the outcome, the request log and the three tables change as `Submit` says, starting from the recipe insert. The next id advances by the number of recipe rows added. Every stored row still refers to a stored recipe. |
| RecipeSubmit.HandleSubmit | src/app/recipes/new/page.tsx:104-178 | The outcome, the request log and the three tables change exactly as `Submit` says for the user, the refusals and the next id. The next id advances by the number of recipe rows added. Every stored row still refers to a stored recipe. |
| Text.TrimEmptyIffBlank | src/app/recipes/new/page.tsx:137-155 | `trim()` gives the empty string exactly when the text is all ECMAScript whitespace or line terminators. |
| Text.ContainsIffOccurs | src/lib/api-helpers.ts:78-83 | `includes` holds exactly when the substring occurs at some position. |
| Text.JsParseIntOnDigits | src/app/recipes/new/page.tsx:123-126 | `parseInt` of a non-empty decimal digit string is its decimal value. |
| Text.JsParseIntReadsLeadingDigits | src/app/recipes/new/page.tsx:123-126 | `parseInt` reads a leading run of decimal digits and ignores everything from the first non-digit on, unless that is the `x` of a `0x` prefix. |
| Text.ExponentTextReadsMantissa | src/app/recipes/new/page.tsx:123-126 | A number input's exponent text such as "1e3" is stored as its mantissa, 1, not as 1000. |
| Text.TrimStartDropsLeadingWhitespace | src/app/recipes/new/page.tsx:137 | `trimStart` keeps a suffix that does not start with whitespace and drops only whitespace. |
| Text.TrimEndDropsTrailingWhitespace | src/app/recipes/new/page.tsx:137 | `trimEnd` keeps a prefix that does not end in whitespace and drops only whitespace. |
| Text.IntTextRoundTrip | src/app/recipes/page.client.tsx:80 | The printed text of any integer parses back to that integer. |
| Text.DecimalRoundTrip | src/app/recipes/page.client.tsx:83 | The decimal text of a non-negative integer parses back to it. |

## Left out

- Clock readings and the `responseTime` and `timestamp` texts of the health endpoint are not modelled. Neither is the fixed `nextjs` and `template` metadata; they are constants or time-dependent and decide nothing.
- `NextResponse.json` serialisation and the HTTP layer are outside the model; a response is a datatype holding the body's fields and the status code.
- The status page's fetch, loading state and JSX layout are left out; only the style tables and the environment-value rendering rule are modelled.
- `fetchCategories`, the loading flag, `router.push`, `alert` and `console` calls are not modelled. The page's navigation is the `SubmitOutcome` value.
- RecipeSubmit.HandleSubmit: `getUser` is modelled as always answering, because a network failure inside it (caught by the same `catch`) is outside the model.
- Text.JsParseInt: the magnitude is an unbounded integer. JavaScript rounds a value above 2^53 to the nearest double, which the model does not, and a parsed `-0` is stored as 0, as JSON writes it.
- RecipeSubmit.Backend.InsertRecipe: the database's own column constraints (required title, difficulty range) are not modelled; a refusal is given by the `rejects` set.
- RecipeDraft.ApplyEdit: the timer input's `parseInt(value) \|\| 0` arrives as an integer; the step-number field is not editable in the form, so that update is not among the edits.
- RecipeListPage.FormatTime: integer minutes only. Fractional minutes and `NaN` are not modelled, and neither is JavaScript's exponent notation for integers of 10^21 and above.
- ApiHelpers.HandleApiError: a `code` that is neither a string nor `null`/`undefined` (on which `startsWith` would throw) is not modelled.
- `console.error` in the error handler is a side effect without influence and is left out.
- The recipe edit page and the delete flow are not part of this model; only the create flow is.
- The client construction helpers, the auth callback route and the UI-only pages are not part of this model.
