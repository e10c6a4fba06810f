# mysql-warp definition layer, in Dafny

A model of the pure logic of mysql-warp, a thin ORM for MySQL on Node.js.
There are two generations of the definition code, and the model covers both.

- `utils.js`:
  - `parseColumnDefinition` validates and normalises one column declaration.
  - `parseModelDefinition` derives the fixed shape of a table mapping. That shape is the primary key, the select/insert/update attribute lists, the backquoted name strings, the boolean-column map and `fetchInsertId`.
  - `createPlaceholders` builds the `?, ?, ?` parameter list.
  - `createObjectId` pads a hex id to eight digits.
- `warp.js`:
  - `defineColumn` is the earlier column validator. It takes a separate physical `column` name.
  - `define` keys the parsed columns by name.
  - `update` and `query` normalise their arguments by arity.
  - `log` contains the zero-padding helper `padding`.
  - A transaction's `done` finaliser decides between commit and rollback.

Modules, one per concern:

| file | module | models |
|---|---|---|
| wrappers.dfy | `Wrappers` | `Option`, and `Result` for the operations that throw |
| js_values.dfy | `JsValues` | the JavaScript values that are inspected, and truthiness |
| text.dfy | `Text` | the identifier character classes, ASCII `toLowerCase`, `join` |
| numerals.dfy | `Numerals` | `Number.prototype.toString` on integers, and reading digits back |
| collections.dfy | `Collections` | the `m[key] = value` loops that build name-keyed maps |
| declarations.dfy | `Declarations` | the caller's column and model options, and the definition errors |
| column_definition.dfy | `ColumnDefinition` | `parseColumnDefinition` |
| quoted_names.dfy | `QuotedNames` | the backquoted, comma-joined name strings, and a reader for them |
| model_definition.dfy | `ModelDefinition` | `parseModelDefinition` |
| placeholders.dfy | `Placeholders` | `createPlaceholders` |
| padding.dfy | `Padding` | `padding` in `log`, and `createObjectId` without its random source |
| warp_definition.dfy | `WarpDefinition` | `defineColumn` and `Warp.prototype.define` |
| warp_calls.dfy | `WarpCalls` | argument normalisation of `update`/`query`, and the `done` finaliser |

A thrown `Error` becomes `Failure(e)`. `e` records which check failed, and `e.Message()` gives the text the original throws.
An absent property of an options object is `None` or `Undefined`.
Every `x ? true : false` and `if (x)` in the source is `Truthy(x)`.

`update` (warp.js:188-198) and `query` (warp.js:218-228) normalise their arguments with the same code.
`WarpCalls.NormalizeArgs` models both.

## Model

| member | source | states |
|---|---|---|
| `ColumnDefinition.ParseColumn` | utils.js:32-60 | A declaration without a type fails with the `TypeError` of `toLowerCase`, whatever its name. A typed declaration is rejected exactly when its name is absent, empty or has a character outside `[a-zA-Z0-9_]`, and the error carries that name. Otherwise the column keeps the name, `autoIncrement` implies `primaryKey`, the type is lower case, `booleanType` holds exactly for `bool`/`boolean`, and `defaultValueIsFunction` says whether the default is a function. |
| `ColumnDefinition.ParseColumnFields` | utils.js:35-43 | `primaryKey`, `allowNull`, `index` and `unique` are the truthiness of the given values, so they are false when absent. `autoIncrement` holds exactly when both `primaryKey` and `autoIncrement` are truthy. The type is the lower-cased input. The default value and the validator are passed through unchanged. |
| `ColumnDefinition.ParseColumnRoundTrip` | utils.js:47-59 | Normalisation is a fixpoint. Writing a valid column out as a literal declaration and parsing it again gives the same column. |
| `ColumnDefinition.ParseColumnIgnoresTypeCase` | utils.js:35-50 | Two types that differ only in ASCII letter case give the same column. So `BOOLEAN` and `Boolean` are both boolean types. |
| `ModelDefinition.ParseColumns` | utils.js:67-69 | The column list succeeds exactly when every declaration has a type and a valid name. It then has one parsed column per declaration, in order. Otherwise the error is the one `ParseColumn` gives for the first rejected declaration, so no later declaration is read. |
| `ModelDefinition.ParseModel` | utils.js:103-121 | On success, `table` is `options.table` if that is truthy, else the model name, so it is never falsy. The hooks are the given values if truthy, else `null`. |
| `ModelDefinition.ParseModelErrors` | utils.js:62-82 | An empty or absent model name fails first, before any declaration is read. Then the first rejected declaration fails, untyped or badly named. Then zero primary-key columns fail with "not found" and two or more fail with "more than 1". The definition succeeds exactly when the name is present, every declaration has a type and a valid name, and exactly one declaration is a primary key. |
| `ModelDefinition.ParseModelKey` | utils.js:74-84 | `primaryKey` is the name of the one primary-key declaration. `fetchInsertId` holds exactly when that declaration is auto-increment. |
| `ModelDefinition.ParseModelSelectList` | utils.js:86-88 | `selectAttributes` has one entry per declaration, and entry `i` is the name of declaration `i`. |
| `ModelDefinition.ParseModelUpdateList` | utils.js:89-93 | `updateAttributes` is the select list with the position of the one primary-key declaration removed, the other names in order. |
| `ModelDefinition.ParseModelInsertList` | utils.js:94-98 | `insertAttributes` is the select list without the auto-increment column. That is the primary key when `fetchInsertId` holds, otherwise nothing is removed. |
| `ModelDefinition.NamesExceptOne` | utils.js:89-98 | A filter that rejects exactly one column removes exactly that column's name and keeps the others in order. |
| `ModelDefinition.ParseModelAttributes` | utils.js:70-73 | The `attributes` keys are exactly the declared names. A name declared twice maps to the column parsed from its last declaration. |
| `ModelDefinition.ParseModelBooleanKeys` | utils.js:99-102 | The `booleanKeys` keys are exactly the declared names. Each maps to the `booleanType` of the last column of that name. |
| `ModelDefinition.ParseModelQuotedNames` | utils.js:113-118 | `selectAttributesNames` and `insertAttributesNames` read back exactly as the select and insert lists. The backquote/`", "` format is unambiguous for valid names. |
| `QuotedNames.QuotedListRoundTrip` | utils.js:113-118 | For names without a backquote, the joined list of backquoted names reads back as the same names. The empty list becomes the empty string. |
| `Collections.AssignContents` | utils.js:71-73 | Assigning `m[keys[i]] = values[i]` in order leaves exactly the given keys. Each key holds the value of its last assignment. |
| `Placeholders.CreatePlaceholders` | utils.js:21-30 | The result is a placeholder list with `max(length, 1)` placeholders: `?` at every third character, `", "` between, length `3k - 2`. A length of one or less gives `"?"`. |
| `Placeholders.PlaceholderListShape` | utils.js:21-30 | A list of `k` placeholders is `"?"` followed by `k - 1` copies of `", ?"`, and contains exactly `k` question marks. |
| `Placeholders.PlaceholderExamples` | test/test_utils.js:35-40 | The lists for one to four placeholders are `"?"`, `"?, ?"`, `"?, ?, ?"` and `"?, ?, ?, ?"`. |
| `Padding.PadLeft` | warp.js:30-34 | The result is as long as the larger of `len` and the length of `s`, ends with `s`, and every character before `s` is `'0'`. |
| `Padding.PadNumber` | warp.js:28-36 | `padding(n, len)` ends with `n.toString()`, is preceded only by zeros, and is as long as the larger of `len` and the length of `n.toString()`. For `n >= 0` it is all decimal digits and reads back as `n`. |
| `Padding.CreateObjectId` | utils.js:10-19 | For any `Math.floor(Math.random() * 0xffffffff)` value, the id is exactly eight characters of `[0-9a-f]` and reads back in base 16 as that value. |
| `Numerals.ValueOfToBase` | utils.js:12 | `n.toString(base)` reads back as `n`. |
| `WarpDefinition.DefineColumn` | warp.js:83-111 | A declaration is rejected with a name error exactly when the name is absent, empty or outside `[a-zA-Z0-9_]+`. It is rejected with a column error when a truthy `column` is outside `[a-zA-Z0-9$_]+`. Otherwise `column` is the given one, or the name when absent or empty, and it always matches its class. |
| `WarpDefinition.DefineColumnIdempotent` | warp.js:96-110 | Declaring an accepted column again, with its resolved `column` name and strict flags written out, is accepted and gives the same column. |
| `WarpDefinition.DefineColumnFields` | warp.js:84-110 | `primaryKey` and `allowNull` are the truthiness of the given values. `defaultValueIsFunction` holds exactly for a function default. Type, default and validator are copied unchanged. |
| `WarpDefinition.DefineColumns` | warp.js:115-117 | Succeeds exactly when every declaration is accepted, giving one column per declaration in order. Otherwise it fails with the first rejected declaration's error. |
| `WarpDefinition.Define` | warp.js:113-125 | `define` succeeds exactly when every declaration is accepted, and keeps the model name. Otherwise it throws the first rejected declaration's error. |
| `WarpDefinition.DefineColumnsKeys` | warp.js:114-117 | The keys of the column map are exactly the declared names. |
| `WarpDefinition.DefineColumnsLastWins` | warp.js:115-117 | A declaration whose name does not occur again later is the one stored under that name. So a later duplicate overwrites an earlier one. |
| `WarpDefinition.InvalidDeclarations` | test/test_utils.js:20-33 | `defineColumn` rejects both declarations the tests list as invalid: `invalid-name`, and column `the-email`. `parseColumnDefinition` rejects only the first. |
| `WarpCalls.NormalizeArgs` | warp.js:188-198 | With 2 to 4 arguments the callback is always the last one. With 2 or 3 arguments `tx` is `null` and `params` is truthy: `[]` for 2 arguments, and `params` or `[]` for 3. Any other count leaves the parameters as passed. `sql` is never changed. |
| `WarpCalls.NormalizeArgsShortForms` | warp.js:188-198 | The short forms mean the explicit four-argument call. `(sql, callback)` is `(sql, [], null, callback)`, and `(sql, params, callback)` is `(sql, params or [], null, callback)`. |
| `WarpCalls.RouteByArity` | warp.js:199-202 | A call with 2 or 3 arguments always takes a pool connection. With 4 it runs in the transaction exactly when `tx` is truthy. |
| `WarpCalls.Done` | warp.js:161-182 | `fn` is called exactly once, as the last event, and no action happens twice. With an error: rollback only, and `fn` gets that error. Without one: commit first, and if commit fails then rollback and `fn` gets the commit error. If the commit succeeds, no rollback happens and `fn` gets `null`. `fn` receives a truthy error exactly when a rollback happened, and otherwise receives `null` after a commit. |
| `WarpCalls.DoneNeverReleases` | warp.js:161-182 | On no path does `done` release the connection. |
| `WarpCalls.DoneReleasing` | warp.js:161-182 | The corrected finaliser releases the connection exactly once, right before `fn`. Removing that release gives exactly the events of `done` as written, and no action happens twice. |

## Left out

- Pool and connection I/O are not modelled: `mysql.createPool`, `getConnection`, `conn.query`, `release`, `beginTransaction`, `commit`, `rollback`, `pool.end`, `executeSQL`. The transaction finaliser is modelled as a decision over abstract outcomes: the caller's error and the commit's error.
- `Done`: `fn` being called once assumes the driver calls each commit and rollback callback exactly once. A rollback's own error is ignored by the source, so it is not a parameter.
- The logging (`console.log`, `log`'s message layout) and the wall clock (`new Date()`) are not modelled. Only the pure `padding` helper is.
- `Math.random` in `createObjectId` is not modelled. The floored random value is a parameter of `CreateObjectId`.
- `validator.matches` is replaced by explicit character-class predicates over strings.
- `ParseColumn`, `DefineColumn`, `ParseModel`: non-string `name`, `column` and `type` values, and a `null` or numeric model name, are not modelled. They are absent or strings, so the message "Name is invalid: null" cannot arise here.
- `ParseColumn`: `toLowerCase` is modelled on ASCII letters only, so types with non-ASCII upper-case letters are not lower-cased here. Boolean-type detection is unaffected, because no non-ASCII character lower-cases into the letters of `bool`/`boolean`.
- `ParseColumn`: a missing type is the `MissingType` error. Its message is the one current V8 gives for `toLowerCase` on `undefined`; other engines word it differently.
- `ParseModel`: `options` is always an object. The original guards `options.table` but dereferences `options.beforeCreate` unguarded.
- `CreatePlaceholders`: lengths are integers. A fractional length is not modelled.
- `PadNumber`: `n.toString()` is modelled as plain decimal. JavaScript switches to exponent notation from 1e21, which is not modelled.
- JavaScript numbers are integers here. NaN, infinities and fractions are not modelled.
- The `Warp` constructor, the prototype wiring of `define`'s returned object, `toString`, `Warp.prototype.destroy`, the logging stub `find`, and the `create` factory are not modelled. They are object plumbing and formatting.
- There is no query builder, CRUD executor, `build`/`save`/`ddl` or boolean row coercion in these files, so none is modelled.
- `ParseModel`: a falsy `options.table`, `""` included, falls back to the model name.
- `done` never releases the connection (see Findings).
- `ParseModelAttributes`, `ParseModelBooleanKeys`, `DefineColumnsKeys` and `DefineColumnsLastWins`: the JavaScript objects filled by `obj[name] = value` are modelled as maps, so a column named `__proto__` is not modelled. That name matches `[a-zA-Z0-9_]+`, but in JavaScript assigning it replaces the object's prototype instead of adding a key, so for it the keys are not the declared names.

## Findings

| source | as written | input that shows it | evidently intended | confidence | as-written member | corrected member |
|---|---|---|---|---|---|---|
| warp.js:161-182 | `done` commits or rolls back and then calls `fn`, but never calls `conn.release()`. So the connection checked out by `transaction` (warp.js:146) never returns to the pool. | `done(null, fn)` with a successful commit gives the events commit, then `fn(null)`, with no release. Every other input likewise has no release. | Release the connection once, after commit or rollback and before `fn`, as `update`/`query` do for pool connections (warp.js:211, 241). | medium; not executed | `WarpCalls.DoneNeverReleases` | `WarpCalls.DoneReleasing` |
