# Recipe catalog: display helpers and the recipe filter query

A recipe catalog and meal-planning web application. Two of its pieces hold
logic that can be stated precisely. This project models both in Dafny and
proves their behaviour.

* **Display and validation helpers** (`src/utils/helpers.js`, module
  `Helpers`). `formatTime` turns a number of minutes into `N/A`, `<m> min`,
  `<h> hr` or `<h> hr <m> min`. `calculateTotalTime` adds a prep time and a
  cook time, and a missing value counts as zero. `isValidEmail` tests the
  regular expression `^[^\s@]+@[^\s@]+\.[^\s@]+$`. `validatePassword` checks
  only the length of the password.
  * `formatTime` is split in two. `Classify` chooses one of four
    `TimeDisplay` shapes. `Render` writes that shape as the template
    literals do. `ParseTime` reads the text back, and the round trip shows
    that the text determines the minutes.
  * `isValidEmail` is modelled twice. `IsValidEmail` is a direct check.
    `MatchesEmailRegex` spells out the regular expression as "some position
    of `@` and of `.` splits the string into three runs of `[^\s@]`". A
    lemma proves the two agree on every string.
* **The filter-to-SQL builder in `Recipe.findAll`** (`src/models/Recipe.js`,
  module `Recipe`). The method `FindAllQuery` builds the result step by step,
  as the source does. It starts from the base query. For each truthy filter,
  cuisine first and then difficulty, it appends a clause with a numbered
  placeholder, pushes the value onto `params` and bumps `paramCount`.
  * Its contract ties the result to `QueryText(ActiveColumns(f))` and
    `ActiveValues(f)`. The text therefore depends only on which filters
    are truthy.
  * `ParseQuery` reads the `(column, $k)` bindings back out of the text.
    The main lemma proves that every placeholder `$k` refers to
    `params[k-1]`. That parameter is the value of the filter on the column
    the clause compares.

Module `JsText` holds the JavaScript conventions both pieces use: the
truthiness of an optional number or string, the decimal text of an integer in
a template literal, and a space splitter (`Words`) and joiner (`Join`) used
by the decoders. Module `Wrappers` holds `Option`. `None` stands for
`undefined` or `null`.

## Model

| member | source | states |
|---|---|---|
| Helpers.Classify | src/utils/helpers.js:8-23 | `N/A` exactly for a falsy argument (0, undefined, null). Minutes alone exactly for a truthy value below 60, negative values included. Otherwise at least one hour, with the parts adding back to the argument, and the hr+min form has a remainder strictly between 0 and 60 |
| Helpers.RenderRoundTrip | src/utils/helpers.js:9-22 | every text `formatTime` can write reads back to the shape it was written from |
| Helpers.FormatTimeNotAvailable | src/utils/helpers.js:9 | the text is `"N/A"` exactly when the minutes are 0, undefined or null |
| Helpers.FormatTimeUnderAnHour | src/utils/helpers.js:11-13 | for 0 < minutes < 60 the text is `"<minutes> min"` |
| Helpers.FormatTimeHours | src/utils/helpers.js:15-22 | for minutes ≥ 60: hours*60 + mins == minutes, 0 ≤ mins < 60 and hours ≥ 1. The text is `"<hours> hr"` for a multiple of 60 and `"<hours> hr <mins> min"` otherwise |
| Helpers.FormatTimeInjective | src/utils/helpers.js:8-23 | two truthy durations with the same text are equal |
| Helpers.OrZero | src/utils/helpers.js:32 | the `or 0` fallback leaves every present number unchanged, 0 included, and reads undefined or null as 0 |
| Helpers.CalculateTotalTimeProperties | src/utils/helpers.js:31-33 | the total is symmetric in its two arguments. A falsy time (0, undefined, null) counts as 0: two falsy times give 0, one falsy time gives the other, and two present times add up |
| Helpers.IsValidEmailMatchesRegex | src/utils/helpers.js:44-48 | the check accepts a string if and only if `^[^\s@]+@[^\s@]+\.[^\s@]+$` matches it |
| Helpers.ValidEmailHasOneAt | src/utils/helpers.js:46 | an accepted address has exactly one `@`, no white space, and a non-empty part before the `@` |
| Helpers.ValidEmailDomainHasDot | src/utils/helpers.js:46 | after the `@` there is a `.` with a non-`@`, non-space character on each side of it |
| Helpers.ValidatePassword | src/utils/helpers.js:56-68 | `valid` holds exactly when the length is at least 8. The message is `''` when valid and `'Password must be at least 8 characters'` otherwise |
| Helpers.ValidatePasswordMonotone | src/utils/helpers.js:57 | lengthening an accepted password keeps it accepted, and the message is empty exactly for an accepted password |
| JsText.IntToStringRoundTrip | src/utils/helpers.js:12 | the decimal text of an integer, as `${minutes}` writes it for magnitudes up to 2^53-1, reads back to the same integer |
| Recipe.FindAllQuery | src/models/Recipe.js:5-21 | the query is the base query plus one clause per truthy filter, numbered from `$1`, in the order cuisine then difficulty. `params` holds the truthy values in that order, and the final `paramCount` is the length of `params` plus 1 |
| Recipe.PlaceholdersReferToParams | src/models/Recipe.js:10-21 | reading the built query back gives one binding per parameter. The k-th clause uses placeholder `$k`, and `params[k-1]` is the value of the filter on that clause's column |
| Recipe.ParseQueryRoundTrip | src/models/Recipe.js:10-21 | for any list of one-word columns, the built text reads back to exactly those columns, numbered 1, 2, … |
| Recipe.QueryStartsWithBase | src/models/Recipe.js:5 | the query always begins with `SELECT * FROM recipes WHERE 1=1` |
| Recipe.NoFiltersGivesBaseQuery | src/models/Recipe.js:5-21 | if and only if no filter is truthy, the query is exactly the base query and `params` is empty |
| Recipe.ParamsCount | src/models/Recipe.js:6-21 | there is one parameter per truthy filter (so at most 2) and one clause per parameter |
| Recipe.ClauseOrder | src/models/Recipe.js:10-21 | with both filters, the query is the base plus ` AND cuisine_type = $1 AND difficulty = $2`, with params `[cuisine, difficulty]`. A lone filter always takes `$1` |
| Recipe.QueryIgnoresValues | src/models/Recipe.js:11-19 | two filter sets with the same truthy filters give the same query text. Filter values reach only `params` |

## Left out

- Non-integer and NaN minutes: `formatTime` and `calculateTotalTime` take integers, or `undefined`/`null` as `None`.
- Helpers.Classify, Helpers.FormatTime, Helpers.CalculateTotalTime and JsText.IntToString use unbounded integers. They match JavaScript only for values of magnitude at most 2^53-1 (`Number.MAX_SAFE_INTEGER`). Above that, JavaScript numbers are doubles, and three things differ:
  - `Math.floor(minutes / 60)` (src/utils/helpers.js:15) rounds the quotient. For 2^56+160 minutes, JavaScript gets 1200959900632135 hours where the model gets 1200959900632134.
  - `${minutes}` (src/utils/helpers.js:12, 19, 22) prints the shortest digits that round-trip, so 2^56 prints as 72057594037927940 rather than 72057594037927936. Exponent notation from 10^21 on is not modelled either.
  - `(prepTime || 0) + (cookTime || 0)` (src/utils/helpers.js:32) rounds the sum to the nearest double.
- Arguments of other JavaScript types: a string passed to `calculateTotalTime` (which would concatenate), a non-string passed to `isValidEmail` (which `test` would convert), or an array-valued query parameter passed as a filter.
- `password.length` counts UTF-16 code units. The model counts characters (Unicode scalar values), so a password with characters outside the Basic Multilingual Plane can differ.
- The `db.query` call and the rows it returns (src/models/Recipe.js:26-27), and every other method of `Recipe`: these are database I/O.
- The shopping-list generation in `MealPlan` only throws "not yet implemented". The unit-conversion and quantity-parsing helpers exist only as TODO comments. There is no behaviour to model.
- Controllers, routes, middleware, authentication (bcrypt, JWT), constants and the React client: HTTP plumbing, foreign libraries and UI.
