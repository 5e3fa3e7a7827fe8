# express-jobly: query builders and authorization gate, in Dafny

express-jobly is a job-board REST API (Node.js, Express, PostgreSQL). This
project models two of its parts and proves what they promise.

1. **The dynamic-SQL builders.**
   - `sqlForPartialUpdate` turns a partial update object into a `SET` list and
     its parameter array.
   - The helper `sqlForFilter` and the model-level `Company.sqlForFilter` and
     `Job.sqlForFilter` turn a filter object into a `WHERE` clause with
     PostgreSQL positional placeholders `$1, $2, ...`.
   - `Company.findAll` checks the employee range and pairs the clause with
     `Object.values(filter)`.
   - `Company.update` appends the handle placeholder `$(n+1)` and the handle.
2. **The authorization gate** (middleware/auth.js).
   - `authenticateJWT` extracts the bearer token (section 2.1 of RFC 6750).
     It stores the verified payload in `res.locals.user` and never fails.
   - `ensureLoggedIn`, `ensureAdmin` and `ensureCorrectUserOrAdmin` each either
     pass or raise UnauthorizedError.

## How the model is built

- **Fragments.** A clause is a sequence of tokens, each SQL text or a
  placeholder `$k` (`Fragments.Tok`). `Render` produces the string the
  application builds, with `k` in decimal.
- **Binding.** `Instantiate` binds `$k` to the k-th parameter, as the database
  does.
- **Alignment.** The central invariant is `Aligned`: the placeholders of a
  clause are exactly `$1..$n` in emission order, one for each of its `n`
  values. On top of that, each builder's *intended-meaning* lemma proves that
  binding the values puts every key's own value into that key's own condition.
- **JavaScript values.** A JavaScript object is its own properties in
  `Object.keys` order (`Js.Object`). Values are strings, integers, booleans,
  `null` and `undefined`. The comparison `>` of `findAll` follows JavaScript:
  strings against strings compare lexicographically, everything else
  numerically, and `undefined` (NaN) compares false.
- **Authorization state.** `authenticateJWT` changes `res.locals.user`, so it
  is a method on the class `Auth.Locals`. It is proved against the function
  `StoredUser`. The three checks are functions of the stored user and the
  route parameter.
- **Token verification.** `jwt.verify` is a parameter: a function from token
  and secret to a payload, or None where it throws.

Modules:

| file | module | role |
|---|---|---|
| js.dfy | `Wrappers`, `Js` | Option/Result/Outcome; JavaScript values, truthiness, `trim`, `>`, decimal text |
| fragments.dfy | `Fragments` | tokens, rendering, `join`, placeholders, binding |
| sql.dfy | `SqlHelpers` | helpers/sql.js |
| company.dfy | `Company` | models/company.js |
| job.dfy | `Job` | `Job.sqlForFilter` as models/job.test.js states it |
| auth.dfy | `Auth` | middleware/auth.js |

## Model

| member | source | states |
|---|---|---|
| Js.Get | models/company.js:62 | `o[key]` is `undefined` when no property is named `key`, and the value of the first property named `key` when there is one |
| Js.TrimStartShape | middleware/auth.js:21 | `trimStart` leaves a suffix; what it removed is whitespace; the result does not begin with whitespace |
| Js.TrimEndShape | middleware/auth.js:21 | `trimEnd` leaves a prefix; what it removed is whitespace; the result does not end with whitespace |
| Js.TrimStartAt | middleware/auth.js:21 | whitespace up to the first non-whitespace character at `i` is exactly what `trimStart` removes |
| Js.TrimEndAt | middleware/auth.js:21 | whitespace after the last non-whitespace character at `j-1` is exactly what `trimEnd` removes |
| Js.TrimIsCore | middleware/auth.js:21 | `trim` gives exactly the part between the leading and the trailing whitespace |
| Js.TrimIdempotent | middleware/auth.js:21 | trimming twice is trimming once |
| Js.NatToString | helpers/sql.js:24 | the decimal text of a placeholder number is non-empty digits without a leading zero |
| Js.ParseNatToString | helpers/sql.js:24 | the decimal text reads back as the number, so `$k` names placeholder k |
| Js.NatToStringInjective | helpers/sql.js:24 | different placeholder numbers have different texts |
| Js.UndefinedNeverGreater | models/company.js:62 | `undefined > v` and `v > undefined` are false for every v |
| Js.GreaterThanIrreflexive | models/company.js:62 | `v > v` is false for every v |
| Js.StringLessIrreflexive | models/company.js:62 | no string is less than itself |
| Fragments.Consecutive | helpers/sql.js:23-25 | the numbers `start .. start+n-1`, by length and by element |
| Fragments.Instantiate | models/company.js:80 | binding succeeds iff every placeholder names an existing parameter, and keeps the length |
| Fragments.Fill | helpers/sql.js:23-25 | filling a condition with its value keeps its length |
| Fragments.ParamsAppend | helpers/sql.js:28 | the placeholders of a concatenation are those of the parts, in order |
| Fragments.ParamsCons | helpers/sql.js:28 | the placeholders of a token followed by more tokens |
| Fragments.ParamsJoin | helpers/sql.js:28 | joining with a text separator adds no placeholder and keeps their order |
| Fragments.ParamsOfAllConsecutive | helpers/sql.js:23-25 | items carrying `$start+i` together carry `$start, $start+1, ...` |
| Fragments.InstantiateAppend | models/company.js:80 | binding distributes over concatenation |
| Fragments.InstantiateJoin | helpers/sql.js:28 | binding distributes over `join` with a text separator |
| Fragments.InstantiateFill | models/company.js:80 | a fragment whose placeholders all name the value v binds to the fragment filled with v |
| Fragments.InstantiateExtraArgs | models/company.js:152 | extra trailing parameters do not change how a fragment binds |
| Fragments.InstantiateParam | models/company.js:80 | `$k` binds to the k-th parameter |
| Fragments.InstantiateText | models/company.js:80 | text binds to itself |
| Fragments.RenderCons | helpers/sql.js:24 | rendering a token followed by more tokens |
| Fragments.RenderAppend | helpers/sql.js:24 | rendering distributes over concatenation |
| Fragments.RenderJoin | helpers/sql.js:28 | the rendered join is the join of the rendered items |
| SqlHelpers.SqlForPartialUpdate | helpers/sql.js:18-31 | fails iff there are no keys or no translation; no keys throws BadRequestError("No data") whatever the translation (helpers/sql.test.js:25-28); the values are `Object.values(data)` |
| SqlHelpers.Assignments | helpers/sql.js:23-25 | one assignment per key |
| SqlHelpers.RenderAssignment | helpers/sql.js:24 | an assignment renders as `"col"=$k` |
| SqlHelpers.PartialUpdateAligned | helpers/sql.js:19-29 | the SET list carries `$1..$n`, one per value, and binding sets each key's column, translated or not, to that key's own value |
| SqlHelpers.PartialUpdateIgnoresUnusedTranslations | helpers/sql.js:24 | translation entries for keys not in the data do not change the result |
| SqlHelpers.ExampleAssignments | helpers/sql.test.js:8-22 | the example's keys map to first_name, last_name, password, email; the unused `isAdmin` entry is ignored |
| SqlHelpers.RenderExampleAssignments | helpers/sql.test.js:20 | the example's assignments render as the expected SET list |
| SqlHelpers.PartialUpdateExample | helpers/sql.test.js:8-22 | the SET list and the values the test expects |
| SqlHelpers.CompanyConditions | helpers/sql.js:42-50 | one condition per key |
| SqlHelpers.SqlForFilter | helpers/sql.js:39-53 | the loop pushes one condition per key in key order; the result is "WHERE " then the conditions joined by " AND " |
| SqlHelpers.HelperEmptyFilterLeavesBareWhere | helpers/sql.js:39-53 | for `{}` the helper returns the bare "WHERE ", which is not a well-formed clause |
| Company.SqlForFilter | models/company.js:184-199 | '' iff the filter has no keys; otherwise a well-formed WHERE clause |
| Company.FilterAligned | models/company.js:67-68 | the clause carries `$1..$n`, one per key, and binding `Object.values(filter)` puts each key's value into its own condition |
| Company.ConditionHasOnePlaceholder | models/company.js:188-196 | each condition carries exactly its own placeholder |
| Company.ConditionText | models/company.js:189-195 | for one key and placeholder `$k`: nameLike renders the case-insensitive substring match, minEmployees `num_employees >= $k`, any other key `num_employees <= $k` |
| Company.FilterConditionText | models/company.js:189-195 | nameLike is the case-insensitive substring match on `$i`, minEmployees is `num_employees >= $i`, and every other key falls through to `num_employees <= $i` |
| Company.FilterExample | models/company.js:61-68 | `{nameLike: "c1"}` gives "WHERE " and the substring match on `$1`, and `findAll` sends `["c1"]` as its parameter list |
| Company.FindAllQuery | models/company.js:61-82 | BadRequestError with the source's message iff `minEmployees > maxEmployees` under JavaScript `>`; otherwise the parameters are `Object.values(filter)` |
| Company.FindAllNumericRange | models/company.js:62-65 | numeric bounds are rejected iff min > max |
| Company.FindAllMissingBoundPasses | models/company.js:62 | with either bound absent the range check never rejects |
| Company.FindAllInvertedRangeExample | models/company.js:62-65 | `{minEmployees: 5, maxEmployees: 2}` is rejected |
| Company.FindAllAligned | models/company.js:67-80 | the query carries `$1..$n`, one per parameter, and binding gives each key's value to its own condition |
| Company.UpdateQuery | models/company.js:133-152 | fails iff `data` is empty, with BadRequestError("No data"); the parameters are the values followed by the handle |
| Company.UpdateTranslation | models/company.js:134-139 | only numEmployees and logoUrl are renamed; every other field is its own column |
| Company.UpdateSetBinds | models/company.js:134-144 | the SET list carries `$1..$n`; binding the field values followed by the handle sets each field's translated column to that field's value |
| Company.HandleConditionBinds | models/company.js:140-152 | the WHERE condition's only placeholder is `$k`, and it binds the k-th parameter |
| Company.UpdateAligned | models/company.js:133-152 | the query carries `$1..$(n+1)`; binding sets each field's translated column to its value, and the WHERE compares `handle` with the handle argument |
| Job.Applicable | models/job.test.js:282-290 | never more entries than the filter |
| Job.Numbered | models/job.test.js:272-280 | one condition per applicable entry |
| Job.SqlForFilter | models/job.test.js:256-295 | '' iff no entry yields a condition; otherwise a well-formed WHERE clause |
| Job.ApplicableIsJobFilter | models/job.test.js:282-290 | dropping entries keeps a valid job filter |
| Job.ApplicableAppend | models/job.test.js:282-290 | choosing conditions works entry by entry |
| Job.BoundValuesAppend | models/job.test.js:272-280 | collecting parameters works entry by entry |
| Job.ConditionPlaceholders | models/job.test.js:257-270 | title and minSalary conditions carry their own placeholder; `equity > 0` carries none |
| Job.ConditionBinds | models/job.test.js:256-280 | a title or minSalary condition carries exactly its own placeholder and binds the value found there; the equity condition carries none |
| Job.NumberedPlaceholders | models/job.test.js:272-280 | numbering that skips value-less conditions yields the consecutive placeholders `next, next+1, ...`, one per bound value |
| Job.NumberedBinds | models/job.test.js:272-280 | when the parameters from `next` on are the bound values, every numbered condition binds its own entry's value |
| Job.FilterAligned | models/job.test.js:272-290 | the clause carries `$1..$n`, one per bound value, with no gap from `hasEquity`; binding gives each condition its own value |
| Job.HasEquityFalseOmitted | models/job.test.js:282-290 | `hasEquity: false` anywhere in the filter changes nothing |
| Job.HasEquityTrueBindsNothing | models/job.test.js:267-280 | `hasEquity: true` adds one condition and no parameter |
| Job.RenderTitle | models/job.test.js:259 | the title condition text |
| Job.RenderMinSalary | models/job.test.js:264 | the salary condition text |
| Job.RenderEquity | models/job.test.js:269 | the equity condition text |
| Job.RenderWhere | models/job.test.js:279 | a clause renders as "WHERE " and the rendered conditions joined by " AND " |
| Job.TitleExample | models/job.test.js:257-260 | `{title: "j1"}` gives "WHERE " and the title substring match on `$1` |
| Job.MinSalaryExample | models/job.test.js:262-265 | `{minSalary: 20000}` gives `WHERE salary >= $1` |
| Job.EquityExample | models/job.test.js:267-270 | `{hasEquity: true}` gives `WHERE equity > 0` with no parameter |
| Job.MultipleExample | models/job.test.js:272-280 | the three filters give the title with $1, the salary with $2, then `equity > 0` |
| Job.EquityFalseExample | models/job.test.js:282-290 | with `hasEquity: false` the equity condition is absent |
| Job.EmptyExample | models/job.test.js:292-295 | `{}` gives '' |
| Auth.StripBearer | middleware/auth.js:21 | one leading "Bearer " or "bearer " is removed; anything else is left as it is |
| Auth.StoredUser | middleware/auth.js:18-28 | an absent or empty header leaves the user unchanged; a token that verifies stores its payload; a token that fails verification leaves the user unchanged (nothing is cleared) |
| Auth.LoggedInIffVerified | middleware/auth.js:18-41 | on a fresh request, `ensureLoggedIn` after `authenticateJWT` passes exactly when a non-empty header was sent, its token verifies and the payload's username is truthy |
| Auth.Locals.AuthenticateJWT | middleware/auth.js:18-31 | `res.locals.user` becomes `StoredUser` of its old value; no error outcome |
| Auth.StoredUserIdempotent | middleware/auth.js:19-27 | authenticating twice with the same header is authenticating once |
| Auth.Spaces | middleware/auth.js:21 | n spaces |
| Auth.B64TokenUntrimmed | middleware/auth.js:21 | a b64token neither begins nor ends with whitespace |
| Auth.SpacesTrimmed | middleware/auth.js:21 | leading spaces before a b64token are trimmed away |
| Auth.SchemeStripped | middleware/auth.js:21 | "Bearer " or "bearer " followed by anything is stripped to that thing |
| Auth.SchemeAndSpacesRemoved | middleware/auth.js:21 | scheme, one or more spaces, and a b64token yield the b64token |
| Auth.BearerCredentials | middleware/auth.js:21 | `"Bearer" 1*SP b64token` (section 2.1 of RFC 6750) yields exactly the b64token |
| Auth.OtherSchemeKept | middleware/auth.js:21 | a header without the prefix is verified whole after trimming |
| Auth.UpperCaseSchemeNotStripped | middleware/auth.js:21 | "BEARER t" is verified as "BEARER t" |
| Auth.EnsureLoggedIn | middleware/auth.js:38-41 | passes iff a user is stored and its username is truthy; otherwise Unauthorized |
| Auth.EnsureAdmin | middleware/auth.js:48-51 | passes iff the stored user's isAdmin is strictly true; otherwise Unauthorized |
| Auth.Username | middleware/auth.js:60 | `user?.username` is undefined with no user and the stored user's `username` otherwise |
| Auth.EnsureCorrectUserOrAdmin | middleware/auth.js:58-67 | passes iff `user?.username === params.username` or the user is an admin; otherwise Unauthorized |
| Auth.AdminIsCorrectEverywhere | middleware/auth.js:62 | whoever passes ensureAdmin passes ensureCorrectUserOrAdmin on every route |
| Auth.CorrectUserIsThatUser | middleware/auth.js:60-62 | on a route naming a user, a non-admin passes only as that user, and is then logged in |
| Auth.AnonymousRefused | routes/users.test.js:220-224 | an anonymous request fails all three checks on a route naming a user |
| Auth.AnonymousWithoutRouteParamPasses | middleware/auth.js:59-62 | no user and no username parameter: both sides are undefined and the check passes |
| Auth.TruthyAdminFlagRefused | middleware/auth.js:49 | an isAdmin that is not the boolean true fails ensureAdmin |
| Auth.ValidBearerStoresPayload | middleware/auth.js:19-24 | `Bearer <token>` with a valid token stores that token's payload |
| Auth.RouteScenarios | routes/users.test.js:181-224 | the u1 and admin tokens pass on /users/u1, the u2 token and anonymous get 401; only the admin token passes ensureAdmin (routes/users.test.js:75-102, routes/jobs.test.js:48-61) |
| Auth.TestUsers | routes/users.test.js:181-218 | the checks on the test users' payloads |

## Left out

- Executing queries, connection handling, `async`/`await`, the result rows and NotFoundError of `get`, `update` and `remove`: the database is outside the model. Queries are modelled as text plus parameter list. `Instantiate` models only the binding of `$k` to the k-th parameter (it accepts extra parameters and gaps in the numbering, which the database rejects); that the placeholders are exactly `$1..$n` for `n` parameters is stated separately, by `Aligned` and the `Params == Consecutive(1, n)` clauses of the query lemmas.
- The whitespace and line breaks of the query templates in models/company.js are written as single spaces in `FindAllHead`, `FindAllTail`, `UpdateHead`, `UpdateWhere` and `UpdateTail`; SQL does not distinguish them.
- `jwt.verify`, `SECRET_KEY` and token signing are a parameter, not modelled.
- `jsonschema` validation in the routes, `Company.create`, `Company.get`, `Company.remove`, `Job.create` and the users model are not part of this model.
- Job.SqlForFilter: models/job.js as shown has no `sqlForFilter`. The model follows the expectations of models/job.test.js:256-295. Its `requires` limits keys to title, minSalary and hasEquity, with hasEquity a boolean, because the behaviour on other input is not stated anywhere.
- Job.SqlForFilter: a filter whose only entry is `hasEquity: false` gives '', as `{}` does; no test states this case. The parameter list (the values of title and minSalary, in key order) is the one the placeholder numbering of the tests implies.
- Job.SqlForFilter: `findAll`, `get`, `update` and `remove` of the Job model are tested but not implemented in models/job.js, so they are not modelled.
- Js.ToNumber: strings convert only when, once trimmed, they are decimal digits or empty. Signs, decimals, exponents, hex and `Infinity` read as NaN, and numbers are integers, so a non-integer `minEmployees` is not modelled.
- Js.StringLess compares by character code, as JavaScript does for code points in the Basic Multilingual Plane; surrogate pairs are not modelled.
- Object keys are taken in the order given. JavaScript's rule that integer-like keys come first in `Object.keys` is not modelled.
- SqlHelpers.ColumnName: a translation is a map from strings to strings. Inherited properties such as `jsToSql["constructor"]`, and truthy non-string entries, are not modelled.
- SqlHelpers.SqlForPartialUpdate: the text of the TypeError raised for an undefined translation is an engine-dependent message; only its kind is modelled.
- Company.SqlForFilter: unknown filter keys fall through to `num_employees <= $i`, as the code does. Rejecting them would be safer, but the model keeps the code's behaviour. Routes validate filters, which is outside the model.
- Auth: `req.headers?.authorization` is an optional string, so the absent `headers` object and the absent header are the same case. The token payload is a plain object; a string payload is not modelled.
- Auth.ExtractToken: the auth scheme is matched only as "Bearer" or "bearer", as the code does. The case-insensitive match RFC 7235 allows ("BEARER") is not performed, and `UpperCaseSchemeNotStripped` states that.

## Findings

| source | as written | input that shows it | evidently intended | confidence | as-written member | corrected member |
|---|---|---|---|---|---|---|
| helpers/sql.js:39-53 | `sqlForFilter({})` returns "WHERE " with no condition, so the query would read `... FROM companies WHERE  ORDER BY name` | `{}` | '' for an empty filter, as `Company.sqlForFilter` (models/company.js:185-186) and the Job tests do | likely; not executed | SqlHelpers.HelperEmptyFilterLeavesBareWhere | Company.SqlForFilter |
