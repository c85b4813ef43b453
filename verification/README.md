# LLM Playground: a verified model of its logic

The LLM Playground is a demonstration single-page application. A user signs in
against a fixed list of demo accounts, writes a prompt, and gets back one of four
canned texts with made-up token counts. A metrics panel ranks the models by
request count. Almost all of the application is markup. This project models the
four pieces that hold logic, as pure Dafny functions over immutable data, and
proves what they guarantee:

- **Session manager** (`AuthContext`). The state is the current user, the loading
  flag and the browser's key-value storage. It covers the credential table
  `MOCK_USERS`, `login`, `logout`, the restore effect that runs on mount, and
  `isAuthenticated`.
- **Mock response generator** (`Dashboard`). This is `handlePromptSubmit`. Token
  counts are the prompt length divided by 4 and by 2, rounded up. An ordered
  keyword rule on the lower-cased prompt picks one of the four fixed texts. The
  new `ModelResponse` replaces the previous one.
- **Metrics derivation** (`SimpleMetrics`). It covers the `topModel` reduce
  (first entry to reach the largest count wins), the `totalModelUsage` sum, and
  the breakdown. The breakdown gives each entry its percentage of the total and
  then sorts the entries stably by descending count.
- **Prompt editor** (`PromptEditor`). It covers the settings update, the submit
  guard on blank prompts, the run button's disabled state, the "generate
  variations" rewrite, clearing, and the `parseInt(...) || 1000` fallback of the
  max-tokens input.

The JavaScript primitives these rely on are modelled in `JsString`:
`String.prototype.trim` with the ECMAScript whitespace set, `toLowerCase`,
`includes` (a left-to-right scan, proved equal to "occurs at some position"),
and `parseInt` with no radix argument. `Scenario` chains the pieces together: a
sign-in followed by a prompt, a variation followed by a run, and the
dashboard's own usage figures.

The model replaces effects with parameters:

- `JSON.parse` is a parameter `string -> Option<User>`, and `None` stands for a
  parse that throws. `JSON.stringify` is a parameter `User -> string`.
- `localStorage` is a `map<string, string>`.
- `Math.random()` is a real in [0, 1).
- The values of `v4()`, `Date.now()` and `toISOString()` arrive as a `SubmitEnv`.

Three behaviours of the code are easy to overlook, and the model keeps them:

- Restore skips a stored empty string. `""` is falsy, so the user stays signed
  out and the entry is kept.
- Percentages are not guarded against a zero total. Every share is then `None`,
  which stands for JavaScript's `NaN`/`Infinity`. An empty usage list still
  yields no rows, because the map never runs.
- The prompt reaches the handler untrimmed, and the token counts use its
  untrimmed length.

## Model

| member | source | states |
|---|---|---|
| AuthContext.FindAccount | src/components/Auth/AuthContext.tsx:77-79 | the account found is the first in the table whose email and password both equal the given ones exactly; nothing is found exactly when no account matches |
| AuthContext.WithoutPassword | src/components/Auth/AuthContext.tsx:85-86 | the stored user keeps the account's id, email, name, role and optional organization, and has no password |
| AuthContext.Login | src/components/Auth/AuthContext.tsx:70-98 | login succeeds iff some demo account has that exact email and password; on success the user is that account without its password and the storage key holds its serialization; on failure the message is "Invalid email or password" and user and storage are unchanged; loading is off afterwards either way |
| AuthContext.SeedAccountsLogIn | src/components/Auth/AuthContext.tsx:26-50 | every demo account signs in with its own credentials and yields exactly itself without the password |
| AuthContext.MockEmailsDistinct | src/components/Auth/AuthContext.tsx:26-50 | the demo emails are pairwise distinct, so at most one account can match |
| AuthContext.FailedLoginKeepsState | src/components/Auth/AuthContext.tsx:81-82 | a failed login changes nothing but the loading flag, including a stale stored entry |
| AuthContext.Logout | src/components/Auth/AuthContext.tsx:100-104 | from any state: no user, not authenticated, the storage key removed, every other key and the loading flag untouched |
| AuthContext.LogoutThenRestore | src/components/Auth/AuthContext.tsx:100-104 | a page load after a logout finds no stored user: the session stays signed out whatever the parser does, and the storage stays as the logout left it |
| AuthContext.Restore | src/components/Auth/AuthContext.tsx:56-68 | three outcomes: an absent or empty entry leaves no user and the storage as is; a parseable entry becomes the user; an unparseable entry is removed and leaves no user; loading is off in every case |
| AuthContext.RestoreIdempotent | src/components/Auth/AuthContext.tsx:58-67 | restoring again from the storage a restore left behind gives the same state |
| AuthContext.RestoreAuthenticates | src/components/Auth/AuthContext.tsx:56-68 | after restore, isAuthenticated holds exactly when a non-empty stored entry parses |
| AuthContext.LoginThenRestore | src/components/Auth/AuthContext.tsx:88-90 | when parse undoes stringify, a reload after a successful login restores the user who signed in |
| Dashboard.CeilDiv | src/components/Dashboard/Dashboard.tsx:42-43 | Math.ceil(n / d) is the least q with q * d >= n |
| Dashboard.CountTokens | src/components/Dashboard/Dashboard.tsx:42-43 | prompt tokens are ceil(length / 4), completion tokens ceil(length / 2), and the total is their sum |
| Dashboard.TokenCountBounds | src/components/Dashboard/Dashboard.tsx:42-43 | completion tokens are never fewer than prompt tokens; a non-empty prompt has at least one of each; an empty one has none |
| Dashboard.SelectTemplate | src/components/Dashboard/Dashboard.tsx:48-56 | first match on the lower-cased prompt, in the order "explain", "compare", "list" or "what are", then the default; each outcome holds iff the earlier keywords are absent and its own is present |
| Dashboard.ResponseText | src/components/Dashboard/Dashboard.tsx:46-56 | the text is always one of the four fixed texts, and a prompt mentioning "explain" in any case gets the explanation even if it also says "compare" |
| Dashboard.TemplateTextInjective | src/components/Dashboard/Dashboard.tsx:218-232 | the four canned texts are pairwise distinct, so the text determines which rule fired |
| Dashboard.ResponseIgnoresCase | src/components/Dashboard/Dashboard.tsx:48-52 | a prompt and its lower-cased form get the same text |
| Dashboard.ResponseDependsOnlyOnLowerCase | src/components/Dashboard/Dashboard.tsx:48-52 | prompts equal after lower-casing get the same text |
| Dashboard.HandlePromptSubmit | src/components/Dashboard/Dashboard.tsx:33-83 | loading is off afterwards; the single held response carries the selected model, the given id and timestamp, the chosen text, the elapsed seconds and the token counts with total = prompt + completion |
| Dashboard.SubmitReplacesResponse | src/components/Dashboard/Dashboard.tsx:59-74 | the state after a submit depends neither on the previous response nor on the settings: the new response replaces the old one |
| JsString.Trim | src/components/Playground/PromptEditor.tsx:40 | trim yields the slice of the input between a blank prefix and a blank suffix; it neither begins nor ends with whitespace, and it is empty exactly when the input is all whitespace |
| JsString.IncludesIffOccurs | src/components/Dashboard/Dashboard.tsx:48 | includes is true exactly when the keyword occurs at some position of the string |
| JsString.ToLowerIdempotent | src/components/Dashboard/Dashboard.tsx:48 | lower-casing twice is lower-casing once, and leaves no upper-case letter |
| JsString.ParseDecimal | src/components/Playground/PromptEditor.tsx:147 | parseInt reads back the decimal numeral of any natural number |
| SimpleMetrics.Reduce | src/components/Analytics/SimpleMetrics.tsx:18-21 | the reduce ends on an entry at least as large as the seed and every entry, on the seed itself when no entry beats it, and otherwise on a member of the list |
| SimpleMetrics.ReduceFindsFirstMax | src/components/Analytics/SimpleMetrics.tsx:18-21 | when some entry beats the seed, the reduce ends on the first entry that reaches the largest count (ties go to the earliest) |
| SimpleMetrics.TopModel | src/components/Analytics/SimpleMetrics.tsx:18-21 | topModel's count bounds every entry; it is ("", 0) exactly when no count is positive, empty usage included; otherwise it is the first entry with the largest count |
| SimpleMetrics.FoldSumIsSum | src/components/Analytics/SimpleMetrics.tsx:24 | the left-to-right reduce with seed a equals a plus the sum of the counts |
| SimpleMetrics.TotalUsage | src/components/Analytics/SimpleMetrics.tsx:24 | totalModelUsage is the sum of all counts |
| SimpleMetrics.Percentage | src/components/Analytics/SimpleMetrics.tsx:29 | a share p satisfies p * total = count * 100, and is undefined exactly when the total is zero |
| SimpleMetrics.Rows | src/components/Analytics/SimpleMetrics.tsx:25-30 | one row per usage entry, in order, with model and count kept and the share against the total |
| SimpleMetrics.Insert | src/components/Analytics/SimpleMetrics.tsx:31 | inserting into a sorted list keeps it sorted, adds exactly the one row, and places it in front of the rows of equal count that were there |
| SimpleMetrics.SortByCount | src/components/Analytics/SimpleMetrics.tsx:31 | the sort's output is non-increasing by count, a permutation of its input, and keeps the input order among rows of equal count |
| SimpleMetrics.Ranked | src/components/Analytics/SimpleMetrics.tsx:25-31 | modelUsageWithPercentage has one row per entry, is a permutation of the rows, and is their stable sort by descending count |
| SimpleMetrics.StableSortUnique | src/components/Analytics/SimpleMetrics.tsx:31 | two lists that are both non-increasing and agree on the order of rows of every count are equal, so the stable order is fully determined |
| SimpleMetrics.RankedIsTheStableSort | src/components/Analytics/SimpleMetrics.tsx:25-31 | any stable descending sort of the rows, whatever its algorithm, equals the ranked breakdown |
| SimpleMetrics.PercentagesSumTo100 | src/components/Analytics/SimpleMetrics.tsx:29 | with a non-zero total every ranked row has a share, and the shares add up to exactly 100 |
| PromptEditor.ChangeSettings | src/components/Playground/PromptEditor.tsx:34-36 | the changed field takes the new value and every other field keeps its old one |
| PromptEditor.MaxTokensInput | src/components/Playground/PromptEditor.tsx:147 | the value is never zero: NaN or 0 from parseInt falls back to 1000, any other parsed value is kept |
| PromptEditor.MaxTokensInputOfNumeral | src/components/Playground/PromptEditor.tsx:147 | typing the numeral of n stores n, except that 0 becomes 1000 |
| PromptEditor.HandleSubmit | src/components/Playground/PromptEditor.tsx:38-42 | a prompt that is all whitespace calls nothing; any other prompt is handed on untrimmed with the current settings |
| PromptEditor.SubmitDisabled | src/components/Playground/PromptEditor.tsx:174 | the run button is disabled exactly when the prompt is all whitespace or a response is loading |
| PromptEditor.EnabledButtonSubmits | src/components/Playground/PromptEditor.tsx:174 | an enabled run button always leads to a call of the handler with the prompt and settings |
| PromptEditor.VariationIndex | src/components/Playground/PromptEditor.tsx:55 | floor(random * 3) indexes the three-element variation list for every random value in [0, 1) |
| PromptEditor.GenerateVariations | src/components/Playground/PromptEditor.tsx:44-57 | a blank prompt becomes the first variation; any other prompt becomes prompt + "\n\nVariation idea: " + one of the three variations |
| PromptEditor.VariationExtendsPrompt | src/components/Playground/PromptEditor.tsx:52-56 | a non-blank prompt survives a variation as a proper prefix of the new prompt |
| PromptEditor.VariationIsSubmittable | src/components/Playground/PromptEditor.tsx:52-56 | the prompt after a variation is never blank, so it can always be submitted |
| PromptEditor.Clear | src/components/Playground/PromptEditor.tsx:89 | clearing empties the prompt and keeps the settings |
| PromptEditor.ClearedEditorCannotSubmit | src/components/Playground/PromptEditor.tsx:89 | after clearing, the run button is disabled and a submit calls nothing |
| Scenario.ResearcherExplainsQuantumComputing | src/components/Dashboard/Dashboard.tsx:42-69 | a fresh browser is signed out; the researcher signs in; "Explain quantum computing" gets the explanation heading, the model "gpt-4o" and the counts 7, 13 and 20 |
| Scenario.BlankVariationGetsExplanation | src/components/Playground/PromptEditor.tsx:46-53 | running the variation generated from a blank prompt yields the explanation text, because that variation says "explain" |
| Scenario.MockMetricsTopModel | src/components/Dashboard/Dashboard.tsx:21-31 | on the dashboard's figures the top model is "GPT-4o" with 532 requests out of 1287 |
| Scenario.ThreeToOneBreakdown | src/components/Analytics/SimpleMetrics.tsx:25-31 | usage A: 1 and B: 3 ranks B first with 75 % and A second with 25 % |

`isAuthenticated` (src/components/Auth/AuthContext.tsx:110) is the predicate
`AuthContext.IsAuthenticated`, which holds when there is a current user. The
contracts of `Logout`, `RestoreAuthenticates` and the scenario use it.

## Left out

- Timers: the 800 ms login delay and the random 500-2500 ms generation delay are not modelled. The loading state visible during those waits is not a separate step. Each operation is modelled from its start to its end, and loading is off at the end.
- Toast notifications and `console.error` have no effect on the modelled state.
- The `catch` branch of `handlePromptSubmit` (src/components/Dashboard/Dashboard.tsx:77-79) is not modelled. Nothing inside the `try` can throw once the clock, the id generator and the delay are parameters.
- `JSON.parse` and `JSON.stringify` are uninterpreted parameters. A stored value that parses to JSON other than a user record (for instance `null` or a number) is outside the model.
- SimpleMetrics.Entry: counts are whole numbers (`int`). The source types them as JavaScript numbers, which may be fractional, but its only caller (src/components/Dashboard/Dashboard.tsx:25-30) passes integer literals.
- JsString.ToLower: lower-cases only the ASCII letters A-Z. JavaScript's `toLowerCase` also maps other Unicode letters, and the full Unicode mapping tables are not modelled.
- Strings are sequences of Dafny `char` (Unicode scalar values), not UTF-16 code units. So a prompt with characters outside the Basic Multilingual Plane has a shorter length here than JavaScript's `length`.
- JsString.ParseInt: reads the digits as an exact integer. JavaScript rounds very long numerals to the nearest double. Its `-0` becomes `0`, which `|| 1000` treats the same way.
- Floating point is modelled as exact reals. This covers temperature, top-p, the response duration (exact milliseconds / 1000) and the percentages. The `Math.round` on the top model's share (src/components/Analytics/SimpleMetrics.tsx:82), `toFixed` and `toLocaleString` are display formatting and are not modelled.
- The order of `Object.entries` is taken to be the order of the usage sequence. JavaScript's rule of integer-like keys first is not modelled.
- PromptEditor.ChangeSettings: covers each control's own call, a field with a value of that field's type. The TypeScript signature `(key, value: number | string)` also allows a mismatched pair, such as a string for `temperature`, which no control produces. That case is not modelled.
- Model selection (`setSelectedModel` via ModelSelector.tsx) is not modelled. The selected model is a free field of the dashboard state, and the static model catalog is not modelled either.
- Rendering is not modelled. This covers ResponseViewer.tsx, LoginForm.tsx (form glue and navigation after a successful login), the landing page, and every React hook.
- The metric cards' random "from last week" figures, and the `totalRequests`, `averageLatency` and `tokensUsed` counters, which are only displayed.
- Concurrency is not modelled. A second submission while one is in flight is prevented only by the disabled button.
