# Inventory manager: request handling and configuration, modelled in Dafny

A Dafny model of the two pieces of logic in a small PHP inventory
application (one `items` table of named stock items with an optional
category, quantity and price):

- **The request handler of `index.php`.** A POST with `action=create` or
  `action=update` trims the four form fields and validates them. Every
  failing check adds an error, in the order id, name, quantity, price. If
  any check failed, the page is rendered again. Otherwise blank optional
  fields become null, the row is inserted or updated, and the handler
  redirects. A POST with `action=delete` deletes the row when its id is
  positive, then redirects. Every request that does not redirect renders
  the page: the notice about a missing edit target, the success banner,
  the form (prefilled from the row being edited or from the POSTed
  values), the listing newest first, and the two totals.
- **The configuration of `config.php`.** The `.env` loader is a loop over
  the file's lines. It skips blank lines, `#` comments and lines without
  `=`. It splits a line at its first `=`, trims the key and the value,
  and strips one matching pair of quotes. It defines a variable only when
  the key is non-empty and not yet defined. The database settings are then
  resolved field by field. Each field takes the first defined value among
  the `DB_*` variable, the `MYSQL*` variable, the matching component of
  the connection URL, and a built-in default.

Modules:

- `Wrappers` (`wrappers.dfy`): `Option`.
- `Text` (`text.dfy`): the PHP string primitives the core relies on:
  `trim`, `ltrim`, `ctype_digit`, the `(int)` cast, truthiness of a string
  and the decimal rendering of an integer.
- `DotEnv` (`dotenv.dfy`): the `.env` loader, as a loop over lines that
  updates an environment map.
- `DbConfig` (`db_config.dfy`): the pure precedence chains and defaults.
- `Form` (`form.dfy`): reading the POSTed form, the quantity and price
  checks, and the step-by-step validation.
- `Inventory` (`inventory.dfy`): the table as a class (rows by id plus the
  AUTO_INCREMENT counter), its INSERT/UPDATE/DELETE, the page model, and
  `Handle`.

The process environment is a `map<string, string>`, in which a variable
that `getenv` reports undefined is simply absent. The `.env` file is an
optional sequence of lines: `None` when it is not readable. `parse_url` is
a parameter of the resolver that returns an optional record of optional
components. The database is the `rows`/`nextId` state of
`Inventory.InventoryApp`. A request is its method, its query parameters
and its form fields. `$_POST` is empty unless the method is POST.

Three facts about the configuration code are easy to get wrong:

- The connection URL is the third source of every chain, after `DB_*` and
  `MYSQL*` (`config.php:42-60`).
- Nothing rewrites a loopback host.
- A variable set to the empty string wins, because `??` skips only
  undefined values (`DbConfig.EmptyVariableStillWins`).

## Model

| member | source | states |
|---|---|---|
| Text.Trim | index.php:79-82 | the result keeps its length bound and has no trim-space (space, tab, CR, LF, NUL, vertical tab) at either end |
| Text.TrimStart | config.php:8 | removes exactly the leading trim-space run: the result is a suffix whose removed prefix is all trim-space and which does not start with one |
| Text.TrimEnd | config.php:8 | removes exactly the trailing trim-space run: the result is a prefix whose removed suffix is all trim-space and which does not end with one |
| Text.TrimOfTrimmed | config.php:16-17 | a string with no trim-space at either end is left unchanged by trim |
| Text.TrimIdempotent | index.php:79-82 | trimming twice is trimming once |
| Text.TrimPadded | config.php:8 | trim removes any all-space padding on both sides of a core that has no space at its ends, and returns that core |
| Text.LtrimChar | config.php:52 | `ltrim($path, '/')` removes exactly the leading run of the character and the result does not start with it |
| Text.DecimalString | index.php:182 | the decimal rendering of a natural number is a `ctype_digit` string whose value is that number, without leading zeros |
| Text.CastOfDigits | index.php:102 | `(int)` of a digit string is its non-negative decimal value |
| Text.CastOfIntString | index.php:151 | `(int)` of the decimal rendering of any integer gives the integer back |
| DotEnv.SplitFirst | config.php:15 | the split is absent exactly when the separator does not occur; otherwise the text is before + separator + after, with no separator in before |
| DotEnv.SplitsAtFirstEquals | config.php:15-17 | a line whose trimmed form is before `=` after, with no `=` in before and no leading `#`, parses to the trimmed key and the trimmed, unquoted value, so a value may itself contain `=` |
| DotEnv.Unquote | config.php:18-23 | a value that does not start and end with the same quote is kept; a quoted one loses exactly its outer pair; a lone quote becomes empty |
| DotEnv.UnquoteQuoted | config.php:18-23 | wrapping text in one pair of `"` or `'` and unquoting gives the text back |
| DotEnv.ParseLine | config.php:8-23 | a line yields no entry exactly when it is blank after trimming, starts with `#` or has no `=`; otherwise the entry is the trimmed text before the first `=` and the trimmed, unquoted text after it |
| DotEnv.SkippedLineChangesNothing | config.php:9-14 | a skipped line leaves the environment unchanged |
| DotEnv.ParseLines | config.php:7 | one parse result per line, in order |
| DotEnv.ApplyEntriesStep | config.php:7-28 | applying one more line is applying that line's entry to the environment built so far |
| DotEnv.LoadEnvFile | config.php:4-29 | the loop's result is the environment unchanged when the file is unreadable, and otherwise the lines' entries applied in order |
| DotEnv.ExistingVariablesWin | config.php:24 | every variable defined before loading keeps its value |
| DotEnv.AddedVariablesComeFromLines | config.php:24-27 | a variable the loader adds has a non-empty name and comes, with its value, from an entry of the file |
| DotEnv.FirstOccurrenceWins | config.php:24-27 | for a non-empty, previously undefined key, the first entry that defines it sets the value, and later repeats are ignored |
| DotEnv.KeyAbsentWithoutLine | config.php:24-27 | a key that was undefined and that no entry defines stays undefined |
| DotEnv.LoadedEnvironment | config.php:4-29 | stated at the level of lines: existing variables win, no empty name is ever added, and every added variable comes from a line of the file |
| DotEnv.FirstLineWins | config.php:24-27 | stated at the level of lines: the first line that defines a new non-empty key sets its value |
| DbConfig.Env | config.php:31-34 | the lookup is defined exactly when the variable is set, and then it is the variable's value, even an empty one |
| DbConfig.FirstSome | config.php:42-60 | the `??` chain gives the first defined source, and it is undefined only when every source is |
| DbConfig.FirstSomeOfThree | config.php:46-48 | a three-source chain with no default is the left-nested `??` of its sources |
| DbConfig.FirstSomeWithDefault | config.php:42-44 | a chain ending in a default is the left-nested `??` with that default last |
| DbConfig.FirstSomeCons | config.php:42-60 | a chain is its head `??` the chain of the rest |
| DbConfig.SelectedUrl | config.php:36 | `DATABASE_URL` when it is set, even to the empty string, and otherwise `MYSQL_URL` |
| DbConfig.UrlComponents | config.php:37-40 | when the selected URL is truthy and parses, the components are exactly what the parser returned; otherwise there are none |
| DbConfig.UrlName | config.php:52 | a URL supplies a name exactly when it has a path, and that name has no leading `/` |
| DbConfig.Resolve | config.php:42-73 | each field is the first defined entry of its chain: `DB_*`, `MYSQL*`, URL component, default; the port has no default; the charset comes from `DB_CHARSET` or its default |
| DbConfig.LoadConfig | config.php:4-73 | the settings are resolved from the environment after the file is loaded, and `DB_HOST`/`DB_CHARSET` already set in the process win over the file |
| DbConfig.DefaultsWhenNothingIsSet | config.php:42-62 | with nothing set: host `127.0.0.1`, no port, name `crud_app`, user `root`, empty password, charset `utf8mb4` |
| DbConfig.EmptyVariableStillWins | config.php:42-44 | a `DB_HOST` set to the empty string gives an empty host |
| DbConfig.VariableOutranksUrl | config.php:42-44 | `MYSQLHOST` wins over a host in the URL when `DB_HOST` is unset |
| DbConfig.UrlIgnoredUnlessUsable | config.php:36-40 | when the selected URL is unset or falsy, the URL parser has no influence on the settings |
| DbConfig.DatabaseUrlPreferred | config.php:36-40 | `DATABASE_URL` is chosen over `MYSQL_URL`; an empty `DATABASE_URL` is still chosen and then supplies no components |
| DbConfig.NameFromUrlPath | config.php:50-52 | with no name variable set, the name is the URL path with its leading `/` characters removed |
| DbConfig.CharsetOnlyFromDbCharset | config.php:62 | two environments that agree on `DB_CHARSET` give the same charset, whatever their `MYSQL*` variables and URLs |
| Form.ReadSubmissionTrimmed | index.php:78-82 | the submission read from the form keeps its action and its four fields are trimmed |
| Form.QuantityAcceptedIff | index.php:92 | a trimmed quantity passes exactly when it is empty or all ASCII digits; the not-negative test never fires on its own |
| Form.QuantityRejectsNonDigit | index.php:92 | any character that is not a digit (sign, dot, letter, space) rejects the quantity |
| Form.QuantityRoundTrip | index.php:92 | the decimal rendering of a stored quantity passes the check and casts back to it |
| Form.SkipDigits | index.php:96 | the scan stops at the end of the run of digits that starts at the given position |
| Form.ScanPriceSound | index.php:96 | what the scanner for `^\d+(\.\d{1,2})?$` accepts has the shape of an amount |
| Form.ScanPriceIff | index.php:96 | the scanner accepts exactly the amounts: one or more digits, then optionally `.` and one or two digits |
| Form.TrimmedPriceAccepted | index.php:82-96 | on a trimmed price the pattern's final-newline allowance never applies: it passes exactly when it is empty or an amount |
| Form.PriceExamples | index.php:96 | `12`, `12.5` and `12.50` are amounts; `12.`, `.5`, `12.345` and `-1` are not |
| Form.Validate | index.php:84-98 | the errors reported are exactly the failing checks, in checking order and without repeats; the list is empty exactly when the submission is acceptable |
| Form.RankedUnique | index.php:84-98 | two reports in checking order that contain the same errors are equal |
| Form.ReportIsDetermined | index.php:84-98 | the error list is fully determined by the submission |
| Form.EmptyNameAndNegativeQuantity | index.php:84-98 | a create with an empty name and quantity `-1` reports exactly the name error and then the quantity error |
| Form.NegativeIdIsNotMissing | index.php:78-86 | a negative id does not raise the missing-id error |
| Form.BlankToNull | index.php:101-103 | blank becomes null and any other text is kept |
| Inventory.PriceShapeIsTrimmed | index.php:96 | an amount is non-empty and has no surrounding whitespace |
| Inventory.AcceptedIsWellFormed | index.php:100-103 | an accepted trimmed submission is stored as a well-formed row: trimmed non-empty name, no blank optional, non-negative quantity, an amount as price |
| Inventory.StoreKeepsWellFormed | index.php:106-129 | writing a well-formed row keeps every row well-formed |
| Inventory.ListDown | index.php:170-172 | the listing is strictly decreasing by id, contains only rows of the table, and contains every row |
| Inventory.ListDownLength | index.php:174 | the listing has exactly one entry per row |
| Inventory.ListDownAgrees | index.php:170-172 | two tables that agree on the listed ids give the same listing |
| Inventory.CreatedRowListedFirst | index.php:105-116 | a created row heads the listing, above everything that was listed before |
| Inventory.SumQuantitiesNonNegative | index.php:175-178 | with no negative quantity the total quantity is not negative |
| Inventory.TotalQuantity | index.php:175-178 | the loop computes the sum of the quantities, null counted as 0 |
| Inventory.SuccessBanner | index.php:72 | a banner is shown exactly when `success` is given and truthy |
| Inventory.RedirectShowsBanner | index.php:217-224 | following each redirect shows the message of the write that issued it |
| Inventory.RequestedEditId | index.php:150-152 | an edit target is requested exactly when `action=edit` and the `id` parameter casts to a positive integer, which is then the target |
| Inventory.LookupEdit | index.php:147-163 | the target is found exactly when it is requested and in the table, and then it is that row; it is gone exactly when it is requested and not in the table |
| Inventory.Notice | index.php:156-157 | the notice "That item no longer exists." is shown exactly when the edit target no longer exists |
| Inventory.EditingId | index.php:147-168 | a found row puts the form in edit mode for its id; otherwise only a POSTed `update` does, for the id `(int) ($_POST['id'] ?? 0)` |
| Inventory.EditPage | index.php:147-183 | on a GET edit page an existing row is in edit mode, with no notice and the form showing its texts; a missing one shows the notice and an empty create form |
| Inventory.Prefill | index.php:180-183 | outside an edit page the form shows the raw POSTed values, blank when missing; on an edit page it shows the row's name |
| Inventory.RejectedFormKeepsTypedValues | index.php:180-183 | a rejected form posted from a page that is not an edit page comes back with the raw, untrimmed values typed |
| Inventory.InventoryApp.constructor | index.php:58-68 | the table as it stands when the request starts |
| Inventory.InventoryApp.Insert | index.php:106-114 | one new row under the counter's id, which was free; the counter moves on; nothing else changes |
| Inventory.InventoryApp.UpdateWhereId | index.php:120-129 | only the row with the id is rewritten, and nothing happens when there is none |
| Inventory.InventoryApp.DeleteWhereId | index.php:139-140 | only the row with the id is removed |
| Inventory.InventoryApp.RenderPage | index.php:147-183 | the page shows exactly the table, newest first, with the row count and the quantity total |
| Inventory.InventoryApp.Store | index.php:100-132 | a create inserts the normalised row and redirects with `created`; an update rewrites only the matching row, if any, and redirects with `updated` |
| Inventory.InventoryApp.Save | index.php:76-134 | a rejected submission leaves the table unchanged and re-renders the page with exactly its errors; an accepted one is stored and redirects |
| Inventory.InventoryApp.Handle | index.php:74-183 | per request: browsing changes nothing and renders; a form is saved as above; a delete removes the row only for a positive id and always redirects with `deleted`; the table invariant and well-formedness of rows are kept |
| Inventory.OptionalTextRoundTrip | index.php:101-103 | a stored optional text shown in the form reads back as the same value |
| Inventory.ShownPriceRoundTrip | index.php:96-103 | a stored price shown in the form passes the price check and reads back as the same value |
| Inventory.QuantityTextRoundTrip | index.php:92-102 | a stored quantity shown in the form is trimmed, passes the check and reads back as the same value |
| Inventory.PrefillShowsRow | index.php:180-183 | on a plain edit page the form shows the row's texts, blank for null |
| Inventory.ShownFieldsRoundTrip | index.php:84-103 | an update carrying a row's shown texts is accepted and normalises back to that row |
| Inventory.ReadShownForm | index.php:78-82 | reading back a form that carries a row's shown texts recovers them unchanged |
| Inventory.EditFormResubmission | index.php:78-129 | resubmitting the form of a plain edit page unchanged is accepted and writes back exactly the row it was filled from |
| Text.Truthy | config.php:38 | PHP truthiness of a string: only `""` and `"0"` are false |
| Text.CtypeDigit | index.php:92 | `ctype_digit`: non-empty and only ASCII digits; its use is pinned down by `Form.QuantityAcceptedIff` |
| Text.IntCast | index.php:78 | `(int)`: leading whitespace, an optional sign, then the longest digit run, 0 when there is none; pinned down by `Text.CastOfDigits` and `Text.CastOfIntString` |
| DotEnv.ApplyEntry | config.php:24-27 | a parsed line defines its key only when the key is non-empty and undefined; pinned down by the `DotEnv` lemmas below |
| Form.ReadSubmission | index.php:78-82 | the id is cast when present and null otherwise; the four fields are trimmed, missing ones read as empty |
| Form.QuantityAccepted | index.php:92 | the quantity check as written, including its never-firing sign test; see `Form.QuantityAcceptedIff` |
| Form.PregMatchPrice | index.php:96 | the price pattern, including the match before a final newline that `$` allows; see `Form.TrimmedPriceAccepted` |
| Form.PriceAccepted | index.php:96 | an empty price passes, any other must match the pattern |
| Form.Applies | index.php:84-96 | when each of the four checks fails; a missing id is a null id or one that casts to 0 |
| Form.MessagesDistinct | index.php:84-98 | the four error messages are the source's texts and pairwise different |
| Inventory.Normalize | index.php:101-103 | blank optional fields become null and a given quantity is cast; see `Inventory.AcceptedIsWellFormed` |
| Inventory.SumQuantities | index.php:175-178 | the sum of the listed quantities with null counted as 0; see `Inventory.TotalQuantity` |
| Inventory.BannerText | index.php:217-224 | the three success texts and `Action completed.` for any other truthy value; see `Inventory.RedirectShowsBanner` |
| Inventory.Page | index.php:147-183 | what the page shows for a table and a request; see `Inventory.InventoryApp.RenderPage` and `Inventory.EditPage` |
| Inventory.IntentOf | index.php:74-77 | a non-POST request or an unknown action only browses; `create`/`update` submit the read form; `delete` removes the id `(int) $_POST['id']`, 0 when absent |

## Left out

- The PDO connection and DSN building (`db.php`) are not part of this model. The resolved port is kept in the settings but used nowhere, as in the code.
- The SQL engine is not modelled: column length limits, the `created_at`/`updated_at` timestamps, and the `CREATE TABLE IF NOT EXISTS` statement, which is a no-op on the abstract table.
- Inventory.InventoryApp.Insert: a price is stored as the submitted text, not as the `DECIMAL(10,2)` value the engine would write back (`12.5` shows as `12.50` after a real round trip).
- Inventory.InventoryApp.Handle: database errors and the setup-error page (`index.php:18-56`) are not modelled; every query is taken to succeed.
- HTML rendering and `htmlspecialchars` escaping are left out. So are `number_format` and `date` (floating point and the clock). The page is its data (`Inventory.View`), not its markup.
- `parse_url` is a parameter of `DbConfig.Resolve`; its internals are not modelled.
- `getenv`, `putenv` and `$_ENV` are process-global state. They become an explicit environment map, with the same definedness rule.
- Text.IntCast: the `(int)` cast models leading whitespace, an optional sign and a digit prefix. Exponent forms such as `1e3` and overflow on huge digit strings are not modelled.
- Query and form values are strings. PHP would also accept arrays (`id[]=1`), which are not modelled.
- Inventory.Prefill: on an edit page a null category, quantity or price falls back to the POSTed value. The round-trip lemmas are stated for a plain GET edit page, where that fallback is blank.
- The modal dialogs and event handling of `assets/app.js` are UI only and are not part of this model.
