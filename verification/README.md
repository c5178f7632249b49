# DDAG: a verified model of the SQL pipeline, the guards and the catalogue

DDAG publishes SQL templates with `:named` parameters as HTTP APIs. This project models the parts
of it that are hardest to get right and proves what they promise:

- **One lexer behind three scanners** (`SqlLexer`, `Scanners`, `Whitespace`, `Grammar`). Binding,
  parameter extraction and stripping are three hand-written loops. Each is proved against one lexer
  indexed by rules, and the places where the rules drift apart are characterised exactly. The lexer
  itself is proved to be the inverse of a printer of SQL tokens.
- **From publication to a driver call** (`QueryBuilder`, `Whitelist`, `SqlPieces`, `FilterNames`,
  `SqlWords`, `QueryMeaning`, `QueryText`, `Publish`, `Statements`, `Appending`, `Rereading`, `PageClauses`,
  `Pagination`). What the query builder generates and which rows it asks for, when a published
  template can miss a parameter or hide a second statement at run time, how placeholders and
  arguments line up after pagination, and how the database reads the text it is sent.
- **Guards** (`Admission`, `Breaker`, `RateLimit`, `Registry`, `ConnCache`). Classes for the
  objects that the source mutates, and step systems over all interleavings or all runs for what
  they guarantee together.
- **Response cache** (`ResponseCache`, `JsonText`, `JsonReader`). The cache, the shared loads and the direct path
  as one step system, against the connector request each caller would have sent itself; and the
  text of a JSON value, which the cache key hashes.
- **Catalogue** (`Lifecycle`, `JsonDiff`). API status, revisions and the published catalogue with
  handlers that read and write in separate steps; the structural diff as something that can be
  applied and undone.
- **Access log** (`RequestLog`). The asynchronous batcher and the multi-row INSERT it produces.

`Strings` and `Options` hold shared definitions. `dafny verify dfyconfig.toml` checks everything.

## Conventions

Strings are sequences of code points. Times and durations are integers; the breaker's failure
ratio is a real number. 64-bit wrap-around is written out where it matters (`Pagination.Wrap64`,
`RequestLog.ItoaMethod`). Locks, Redis scripts and SQL transactions are atomic steps. A loop that
never advances is an outcome (`BindSpins`, `Spinning`), so every method terminates. A JSON number
is the one text that encoding/json writes for it, the two zeros being one number. Marshalling is modelled and proved injective;
SHA-256 is a function assumed to have no collisions (`ResponseCache.Collisionless`, which
`ResponseCache.CollisionlessHash` shows can be met). Regular expressions, type coercion and the
write-statement heuristic are function parameters (`Publish.Env`).

## What does not hold

Where a promise of the code, its comments or its design turned out false, the failing inputs or
runs are given and the exact condition is proved.

- A `$`-quoted body is opaque to publish validation in every dialect, but binding treats `$` as
  special only for Postgres, and the connectors bind without a dialect. The template `$$:x$$` is
  accepted and then reported as missing `x` (`Publish.PromiseFails`); `Publish.MissingIff` is the
  exact condition.
- Validation trims a template, binding does not. The Oracle template `q'` followed by a space is
  accepted, and binding it by dialect never ends (`Publish.SpacedQSpins`); `Publish.SpinsIff` and
  `Publish.DialectBindsIff` say exactly when.
- A `$` or an Oracle `q'` that is never closed leaves the scan position unchanged forever
  (`SqlLexer.LoneDollarSpins`, exact in `SqlLexer.TerminatesIff`). Publishing such a template hangs
  (the second clause of `Publish.ValidateForPublish` says exactly when).
- The scan for a dollar quote takes the letters, digits and dollar signs after the opening tag for
  part of the tag. A Postgres dollar quote is therefore read as one region if and only if its body
  begins with another character (`Grammar.DollarReadIff`); a quoted word such as `$$a$$` makes every
  scanner that knows dollar quotes spin (`Grammar.QuotedWordSpins`).
- Stripping does not read parameter names, so an Oracle name ending in `q` before a quote is read
  as a quoted literal (`SqlLexer.CollisionDiffers`, exact in `SqlLexer.StripExtractAgree`).
- The one-statement check reads dollar quotes in every dialect and no parameter names. Outside
  Postgres `$$;$$` passes it although the binder reads the `;` as code
  (`Statements.QuotedSemicolonPasses`), and so does the Oracle template `:q'x';x'`, without a `$`
  (`Statements.MeetingSemicolonPasses`). The check keeps its promise for every accepted template of
  a dialect if and only if that dialect is Postgres (`Statements.OneStatementIff`);
  `Publish.BindsOneStatement` covers the templates of the others that meet neither case.
- The pagination clause is appended to the bound text without looking at how that text ends. The
  accepted template `a--b` ends in a comment, which swallows the clause, so the database is sent two
  arguments for no placeholder (`Pagination.ClauseSwallowed`, exact in `Pagination.ClauseReadIff`).
  Trimming also takes away a line break that ended such a comment.
- `(page - 1) * limit` wraps round for large pages (`Pagination.PageOverflows`, exact in
  `Pagination.OnPageIff`).
- A half-open breaker whose probes are never reported refuses every later call. Whatever the
  settings, there is a run that gets there (`Breaker.EveryBreakerWedges`); `Breaker.WedgedIff` and
  `Breaker.LeavesFullIff` are exact. A call path that returns between `Allow` and `Report` exists
  (internal/connector/service.go:210-227).
- Two overlapping pool acquisitions with different versions lose a pool
  (`Registry.LostPool`, exact per step in `Registry.SettleBalancedIff` and over whole schedules in
  `Registry.AlwaysBalancedIff`).
- The comment on the connection cache speaks of one TTL; a resolution can be older by the time of
  one load. `ConnCache.StaleIff` gives, for every TTL and load time, exactly the calls that can
  still be given the old version.
- Repeated query keys are joined with commas, so different requests can share a cache key
  (`ResponseCache.RepeatedValueShares`, exact in `ResponseCache.ValuesUniqueIff`), and parameters
  with reserved names are overwritten in it (`ResponseCache.NameLostIff`).
- The cache is consulted before the method is looked at: a definition republished with a write
  method can be answered with a cached read (`ResponseCache.WriteAnsweredFromCache`, exact in
  `ResponseCache.WriteFromCacheIff`).
- A filter whose name is not made of letters, digits, `_`, `.` and `-` gets a key that the binder
  does not read as one name (`QueryBuilder.KeyMisread`, exact in `QueryBuilder.BuildAndBind`). With
  filters `0` and `0_0 x`, the value of `0` is bound twice and that of `0_0 x` never
  (`FilterNames.BoundTwice`).
- The comment on `ListPublishedAPIs` says that editing leaves the live catalogue alone. An edit
  moves a PUBLISHED definition to DRAFT, which removes it at once
  (`Lifecycle.EditKeepsCatalogueIff`).
- Status checks and writes are separate statements. A late approval can revive a DISABLED
  definition (`Lifecycle.TerminalRevived`, exact in `Lifecycle.MoveLegalIff`), and an edit during
  a publish leaves the gateway serving other content than the definition holds
  (`Lifecycle.StalePublish`, exact in `Lifecycle.PublishCurrentIff`).
- Keys that are empty or contain a dot make the diff lose an addition
  (`JsonDiff.UnsafeKeyConfuses`); all other keys are safe (`JsonDiff.SafeKeysNeverConfuse`).
- `SetAPIStatus` passes three arguments to a statement with two placeholders. If the driver
  refuses that, no definition ever leaves DRAFT (`Lifecycle.NothingLeavesDraft`); all other
  results hold in either case.
- The comment in the request logger counts 13 columns per row; the statement has 14, and the
  batch cap still keeps it within the protocol's limit (`RequestLog.PlaceholderNames`).

## Model

| member | source | states |
|---|---|---|
| SqlLexer.Lossless | internal/connectors/bind.go:59-161 | The lexemes of a scan followed by what is left are the template: nothing is dropped, added or reordered |
| SqlLexer.StuckIffUnclosed | internal/connectors/bind.go:72-98 | One scan step fails to advance exactly at a `$` or `q'` that the rules handle and that is not closed |
| SqlLexer.TerminatesIff | internal/connectors/bind.go:172-237 | A scan terminates exactly when it never meets such an unclosed opener in code position, and spins exactly when it does |
| SqlLexer.LoneDollarSpins | internal/connectors/bind.go:173-177 | A lone `$` makes every scanner that handles it spin |
| SqlLexer.PlainTerminates | internal/connectors/bind.go:50-53 | Without `$` and Oracle quoting, as in the connectors' plain binding, every template is scanned to its end |
| SqlLexer.SameLexemesIff | internal/connectors/bind.go:316-318 | Two rule sets read a template alike if and only if they agree on every special opener the scan meets in code position |
| SqlLexer.BindExtractAgree | internal/connectors/bind.go:59-238 | Binding and extraction see the same lexemes if and only if the dialect is Postgres or no `$` occurs in code position |
| SqlLexer.PlainExtractAgree | internal/connectors/bind.go:50-53 | The plain binding reads a template like extraction in a dialect if and only if it meets none of that dialect's special openers |
| SqlLexer.CollisionDiffers | internal/connectors/bind.go:351-355 | An Oracle parameter name ending in `q` directly before a quote is read differently by stripping |
| SqlLexer.StripExtractAgree | internal/connectors/bind.go:316-393 | Stripping finds the same regions as extraction at every point of the scan if and only if no such name is met |
| Grammar.TokenReads | internal/connectors/bind.go:69-158 | A quote with its doubled delimiters, a comment up to its terminator or line break, a dollar or `q'` quote up to its closing tag, a cast, a name or a plain character is read as exactly that, and what follows it as if it stood alone, under every rule set that knows it |
| Grammar.WrittenReads | internal/connectors/bind.go:59-161 | Every sequence of such tokens, with a last quote or block comment left open or not, is read as these tokens |
| Grammar.ScansIffWritten | internal/connectors/bind.go:59-161 | A template scans to its end if and only if it is written in such tokens, and is read as any way it is written |
| Grammar.BindsWritten | internal/connectors/bind.go:44-50 | Binding a written template replaces exactly its names by the placeholders in order and passes their values, or reports the first name without one |
| Grammar.ExtractsWritten | internal/connectors/bind.go:163-165 | Extraction reads exactly the names of a written template and stripping leaves exactly its text outside quotes and comments |
| Grammar.DollarReadIff | internal/connectors/bind.go:266-284 | A dollar quote with an identifier or nothing as its tag is read as one region if and only if its body begins with a character that is neither `$` nor part of an identifier |
| Grammar.QuotedWordSpins | internal/connectors/bind.go:266-284 | A dollar quote around letters, digits and dollar signs only makes every scanner that knows dollar quotes spin |
| Scanners.SkipDelimited | internal/connectors/bind.go:240-264 | Skips to just after the closing delimiter, doubled delimiters included, or to the end |
| Scanners.CopyDelimited | internal/connectors/bind.go:286-314 | Copies exactly the text it skips |
| Scanners.SkipLine | internal/connectors/bind.go:117-122 | A line comment reaches to the line break or the end |
| Scanners.SkipBlock | internal/connectors/bind.go:123-135 | A block comment reaches past its terminator or to the end |
| Scanners.DollarQuoteEnd | internal/connectors/bind.go:266-284 | The end of a dollar-quoted body with its tag, or 0 when the tag does not recur |
| Scanners.OracleQuoteEnd | internal/connectors/bind.go:395-409 | The end of an Oracle `q'` literal with its matching bracket, or 0 when unclosed |
| Scanners.BindDialect | internal/connectors/bind.go:59-161 | The k-th parameter lexeme is replaced by ph(k), all other text is copied verbatim, the arguments are the values in order; otherwise the first missing name is reported, or the loop spins |
| Scanners.ExtractParamNamesDialect | internal/connectors/bind.go:165-238 | The parameter names of the same lexer, each once, in order of first occurrence |
| Scanners.StripDialect | internal/connectors/bind.go:319-393 | The template with exactly the opaque regions deleted |
| Scanners.DedupedKeepsOrder | internal/connectors/bind.go:165-238 | The deduplicated names are in order of first occurrence |
| Whitespace.TrimKeepsNames | internal/gateway/validate.go:34-60 | A template and its trimmed form name the same parameters under every rule set, whether or not their scans end, so validating the trimmed text covers the stored one |
| Whitespace.TrimScansIff | internal/gateway/validate.go:34-60 | A template scans to its end exactly when its trimmed form does, unless an Oracle scan comes to a final `q'` that spaces follow |
| QueryBuilder.KeyInjective | internal/gateway/querybuilder.go:231-236 | A generated key determines its base and its counter, even when one base is a prefix of another |
| QueryBuilder.FreshKey | internal/gateway/querybuilder.go:359-373 | The counter taken from the number of keys with the same prefix always gives an unused key, for every set of keys so generated |
| QueryBuilder.Add | internal/gateway/querybuilder.go:231-236 | A value is stored under the next key of its filter, which is new, and no stored value is overwritten |
| QueryBuilder.KeysDistinct | internal/gateway/querybuilder.go:359-373 | For every list of filters and every query, no two values of the WHERE share a key |
| QueryBuilder.BuildWhereClause | internal/gateway/querybuilder.go:230-276 | Fails exactly on an unknown operator or a wrong number of values; otherwise the clause is the operator's text over holes for exactly the clause's values |
| QueryBuilder.Where | internal/gateway/querybuilder.go:191-228 | Accepts exactly the queries whose names, operators and values are allowed; the clauses joined by AND say what the filters ask for, in filter order |
| QueryBuilder.OrderBy | internal/gateway/querybuilder.go:278-304 | Accepts exactly the known sort names and renders each token's column and direction in order |
| QueryBuilder.Validate | internal/gateway/querybuilder.go:151-189 | Accepts exactly the configurations with whitelisted tables, columns and joins, at least one column, and named filters and sort columns |
| QueryBuilder.IsAllowed | internal/gateway/querybuilder.go:306-313 | True exactly for the operators the filter lists, or for `eq` when it lists none |
| QueryBuilder.NamesKnown | internal/gateway/querybuilder.go:193-205 | True exactly when every query key with a value is a filter's or one of the four reserved names, in whatever order the map is walked |
| Whitelist.AliasIff | internal/gateway/querybuilder.go:16 | An alias is exactly what aliasRE matches |
| Whitelist.IdentifierIff | internal/gateway/querybuilder.go:15 | A safe identifier is exactly what identifierRE matches |
| Whitelist.SelectColumnIff | internal/gateway/querybuilder.go:18 | A plain select expression is exactly what selectColRE matches |
| Whitelist.SelectAggregateIff | internal/gateway/querybuilder.go:17 | An aggregate select expression is exactly what selectAggRE matches |
| QueryBuilder.SelectQuiet | internal/gateway/querybuilder.go:337-340 | Every accepted select expression is free of characters that any scanner treats specially |
| QueryBuilder.Build | internal/gateway/querybuilder.go:102-149 | Builds exactly for acceptable configurations and queries; the SQL is the configured query with holes whose values, in filter order, are each stored under their own key; the keys are exactly the next ones of each filter, and nothing else is stored |
| QueryBuilder.BuildAndBind | internal/gateway/querybuilder.go:65-83 | The binder reads exactly the generated keys, in order, if and only if every filter that the query gives a value has an identifier-like name; then, in any dialect and merged with any declared parameters, binding finds no quoted or comment region, numbers the placeholders through the query's own text and passes exactly the filter values in order |
| QueryMeaning.ClauseReads | internal/gateway/querybuilder.go:237-275 | The words of every clause, read back with its parameters, are the condition its operator stands for on its column |
| QueryMeaning.CondMeans | internal/gateway/querybuilder.go:237-275 | For every way of comparing values: that condition is met by exactly the values, NULL included, that the operator and its argument ask for |
| QueryMeaning.LikeContains | internal/gateway/querybuilder.go:242-243 | A pattern put between two `%` matches exactly the texts that have a part matching the pattern |
| QueryMeaning.WhereReads | internal/gateway/querybuilder.go:206-227 | The words of the whole WHERE are read as the conditions of the filters that the request gives a value, in filter order |
| QueryMeaning.RowsAsked | internal/gateway/querybuilder.go:206-227 | A row passes these conditions if and only if it has what the request asks of every filter |
| QueryText.HeadWords | internal/gateway/querybuilder.go:107-110 | SELECT, the configured columns between commas, FROM and the base table, word by word |
| QueryText.JoinWords | internal/gateway/querybuilder.go:111-126 | A join is its kind, JOIN, the table, the alias if any, ON and the two columns with `=` between, word by word |
| QueryText.OrderReads | internal/gateway/querybuilder.go:289-303 | The order text is read as the column of each token, descending exactly for a token with a minus sign |
| QueryText.LastSortable | internal/gateway/querybuilder.go:285-288 | Where a sortable name is declared twice, the later column counts |
| QueryText.QuerySpells | internal/gateway/querybuilder.go:102-149 | Read word by word, a built query is the configured columns, table and joins, the conditions and the order that the request stands for, and the configured grouping |
| QueryText.BuildAsked | internal/gateway/querybuilder.go:102-149 | The same for what Build returns, and the conditions are met by exactly the rows that the request asks for |
| QueryText.OperatorSpelled | internal/gateway/querybuilder.go:315-321 | In `op:argument` the first colon ends the operator, whose case and outer blanks do not matter; an empty one leaves the whole value to `eq` |
| QueryText.NoOperator | internal/gateway/querybuilder.go:211-215 | A value without a colon is compared as it is |
| QueryText.ItemsSplit | internal/gateway/querybuilder.go:323-333 | At a comma the items of a list are those before and those after it |
| QueryText.OneItem | internal/gateway/querybuilder.go:323-333 | An item is trimmed, and dropped when nothing is left |
| QueryBuilder.KeyIsAliasIff | internal/gateway/querybuilder.go:359-363 | A generated key is an identifier exactly when the filter's name is made of letters, digits, `_`, `.` and `-` |
| QueryBuilder.KeyMisread | internal/gateway/querybuilder.go:231-236 | The key of a filter `0_0 x` is read as the key of a filter `0` |
| FilterNames.BoundTwice | internal/gateway/querybuilder.go:191-236 | With filters `0` and `0_0 x` and a value for each, the query is built with a key of its own for each value, yet in every dialect the value of `0` is bound twice and the other never |
| SqlPieces.PiecesScan | internal/connectors/bind.go:59-161 | SQL assembled from quiet text and generated keys scans to its end under every rule set, and its parameters are its holes in order |
| SqlPieces.PiecesBind | internal/connectors/bind.go:59-161 | Binding such SQL fills the holes with numbered placeholders and supplies exactly their values |
| Publish.HasMultipleStatements | internal/gateway/validate.go:126-133 | True exactly when a `;` remains in the stripped and trimmed text; never returns exactly when stripping gets stuck |
| Publish.CompareNames | internal/gateway/validate.go:50-64 | Accepts exactly when the names used are the names declared, and reports an undeclared name first |
| Publish.ValidateParameterRegexes | internal/gateway/validate.go:79-89 | Accepts exactly when every rule compiles |
| Publish.SingleStatementIff | internal/gateway/validate.go:126-133 | Unless a name runs into a quote, a template passes as one statement exactly when extraction scans it to its end and reads no `;` as code, trailing ones apart |
| Publish.BindsOneStatement | internal/gateway/validate.go:46-48 | Then the binder reads no `;` as code in an accepted template either |
| Statements.QuotedSemicolonPasses | internal/gateway/validate.go:126-133 | Outside Postgres the template `$$;$$` is accepted although the binder reads its `;` as code |
| Statements.MeetingSemicolonPasses | internal/gateway/validate.go:126-133 | On Oracle the template `:q'x';x'` with its parameter declared is accepted although the binder reads its `;` as code |
| Statements.ReadsNeverWrite | internal/gateway/validate.go:40-45 | In an accepted API for GET or QUERY, or not marked as a write, the text of the template outside its quotes and comments is no write statement |
| Statements.OneStatementIff | internal/gateway/validate.go:46-48 | For each dialect: in every accepted template the binder reads no `;` as code, trailing ones apart, if and only if the dialect is Postgres |
| Publish.ValidateForPublish | internal/gateway/validate.go:25-72 | Accepts exactly the publishable definitions, both directions of every rule in one condition, and never returns exactly when a scan it comes to gets stuck |
| Publish.ResolveParams | internal/gateway/params.go:18-78 | For each last declaration: a non-empty text at the declared place of the request, or else the default, is what is read as the declared type; with neither the name is supplied as null. Refused exactly when a required parameter has neither, or the text of some parameter is too long, is not matched by its rule or is not of its type |
| Publish.RulesEnforced | internal/gateway/validate.go:79-89 | No rule of an accepted API is skipped at run time for not compiling: every text that resolution lets through was matched by its parameter's rule |
| Publish.BytesOf | internal/gateway/params.go:37-40 | The length compared with the maximum counts one byte up to 7 bits of a character, two up to 11, three up to 16 and else four |
| Publish.MissingIff | internal/connectors/bind.go:140-154 | For any accepted template and resolved parameters, binding under any rules reports a missing parameter if and only if those rules see a name that extraction in the API's dialect does not |
| Publish.SpinsIff | internal/connectors/bind.go:59-161 | Binding an accepted template never ends if and only if nothing is missing and its trimmed form spins or it ends in an Oracle `q'` and spaces |
| Publish.PublishedBindsIff | internal/gateway/validate.go:50-60 | With rules that do not drift from extraction, an accepted template never misses a parameter, and is bound if and only if it does not end in an Oracle `q'` and spaces |
| Publish.DialectBindsIff | internal/connectors/bind.go:55-57 | For Postgres, or when no `$` occurs in code position, dialect binding of an accepted template never misses a parameter, and succeeds if and only if the template does not end in an Oracle `q'` and spaces |
| Publish.SpacedQSpins | internal/connectors/bind.go:93-98 | The Oracle template `q'` and a space is accepted, yet binding it by dialect never ends |
| Publish.LiveBindsIff | internal/connectors/postgres.go:79 | The connectors' plain binding of an accepted template always ends, and succeeds if and only if it reads no name that extraction in the API's dialect does not |
| Publish.LiveBindSucceeds | internal/connectors/postgres.go:79 | The connectors' plain binding of an accepted template succeeds when it meets none of the dialect's special openers |
| Publish.PromiseFails | internal/connectors/sqldb.go:43 | The template `$$:x$$` is accepted, yet binding reports `x` missing, plainly in every dialect and with the dialect outside Postgres |
| Pagination.TrimWeave | internal/connectors/pagination.go:20-21 | Trimming space and a semicolon off a bound query trims its outer texts and changes neither the inner texts nor a placeholder |
| Appending.ReadApartIff | internal/connectors/pagination.go:20-36 | For every rule set and text: what is appended after a space is read on its own if and only if the text scans to its end and leaves no quote or comment open; a closed text also keeps apart what follows other white space or a semicolon |
| Rereading.PlaceholderIsCode | internal/connectors/bind.go:18-42 | The database reads a driver placeholder as code, whatever follows it |
| Rereading.RereadIff | internal/connectors/bind.go:59-161 | The database reads the bound text as the template's own lexemes, each parameter a placeholder in code position, if and only if it agrees with the binder on every opener met |
| Pagination.TailIsCode | internal/connectors/pagination.go:22-36 | Read on its own, the appended text is code throughout, its two placeholders included |
| Pagination.ClauseReadIff | internal/connectors/pagination.go:20-36 | For every query: the database reads the appended clause as code after the query if and only if the trimmed query leaves no quote or comment open |
| Pagination.TrimmedRead | internal/connectors/pagination.go:20-21 | Trimming drops code from the ends of a query that leaves nothing open, and no other lexeme |
| Pagination.PagedReads | internal/connectors/pagination.go:13-40 | Under both conditions the database reads the template's lexemes with a placeholder for each parameter, outer white space and a last semicolon dropped, and then the clause |
| Pagination.ClauseSwallowed | internal/connectors/pagination.go:20-25 | The Postgres template `a--b` is accepted, and after pagination the database reads the whole clause as part of its comment |
| Pagination.PageAsksFor | internal/connectors/pagination.go:22-36 | Read from the words of the paginated query and its arguments alone, in each dialect's own clause: the argument that says how many rows is the limit, and the one that says how many to skip is the offset, 0 for a negative one |
| Pagination.PageKeepsWords | internal/connectors/pagination.go:20-36 | Before the clause stand the words of the query and, for SQL Server without an order, the order supplied |
| Pagination.PaginationMatches | internal/connectors/pagination.go:13-40 | A query of n + 1 texts woven with placeholders for its n arguments becomes one of n + 3: its own texts, the outer ones trimmed, then the clause's, with limit and offset in the slots the dialect's clause reads |
| Pagination.BindingMatches | internal/connectors/bind.go:18-42 | Binding weaves the template's own texts with one numbered placeholder for each of its parameters, and passes the value of each in that order |
| Pagination.BindAndPaginate | internal/connectors/pagination.go:13-40 | End to end: the template's own texts, the outer ones trimmed, woven with placeholders for its parameters, then the clause, which asks for limit rows from offset on; or the binding failure. The database reads the bound text as the template exactly when it agrees with the binder on every opener, and the clause as code exactly when the trimmed query leaves no region open |
| Pagination.LimitWithinCaps | internal/gatewaysvc/service.go:454-474 | The effective limit is at least 1 and, for a positive default, within every positive cap and the requested number |
| Pagination.LimitIsLeast | internal/gatewaysvc/service.go:454-474 | The effective limit is exactly the least of what is asked for, or else the API's default, and the positive caps; with neither it is the gateway's default, or 100 |
| Pagination.WindowStarts | internal/gatewaysvc/service.go:436-452 | An explicit offset is taken as it is; otherwise a page begins at its first row if and only if that fits 64 bits; without either the window is the first page |
| Pagination.OnPageIff | internal/gatewaysvc/service.go:436-452 | The offset lies on the reported page if and only if the multiplication, or the page number of an explicit offset, stays within 64 bits |
| Pagination.PageOverflows | internal/gatewaysvc/service.go:440-445 | A page number for which the offset wraps round to the first row |
| Admission.AdmissionController.Enter | internal/connector/admission.go:60-81 | One locked attempt: granted below the limit, queued or refused by queue size, waiting on the current channel otherwise |
| Admission.AdmissionController.Dequeue | internal/connector/admission.go:95-101 | Takes one waiter off this key and leaves other keys alone |
| Admission.AdmissionController.Release | internal/connector/admission.go:103-118 | Gives one slot back, replaces the notify channel and leaves other keys alone |
| Admission.AlwaysInv | internal/connector/admission.go:47-118 | In every reachable state of every interleaving, for every key: inflight is the number of holders, waiting the number of queued threads and at most the queue size, inflight at most the largest limit asked for |
| Admission.GuardsHold | internal/connector/admission.go:95-118 | The underflow guards never fire: a holder implies inflight above 0, a queued thread implies waiting above 0 |
| Admission.AttemptServedIff | internal/connector/admission.go:60-81 | In every reachable state, an attempt is granted exactly when fewer threads hold the key than its limit, refused exactly when it is a first one without room and the queue is full, and waits otherwise |
| Admission.LimitIsAsked | internal/connector/admission.go:51-53 | A caller's limit is the one it asked for, at least 1, throughout |
| Admission.OnlyReleaseWakes | internal/connector/admission.go:83-92 | A caller that begins to wait sleeps, and another's step wakes it exactly when it releases a slot of the same key |
| Admission.NoLostWakeup | internal/connector/admission.go:61-93 | A blocked thread that is below its limit can always wake |
| Admission.NoDeadlock | internal/connector/admission.go:61-93 | When nobody holds a slot of a key, every queued thread of that key can move |
| Admission.ReleaseWakesAll | internal/connector/admission.go:103-118 | A release enables every thread blocked on its key |
| Admission.KeysAreIndependent | internal/connector/admission.go:35-45 | A step on one key changes no other key |
| RateLimit.Redis.Eval | internal/policy/ratelimit.go:24-41 | The script's loop over the windows, stopping after the first window over its limit |
| RateLimit.Decode | internal/policy/ratelimit.go:102-133 | Allowed exactly when all evaluated windows are within limit; reports the window with the smallest remaining, and on denial the first window exceeded |
| RateLimit.ScriptReply | internal/policy/ratelimit.go:24-41 | The script answers one pair per window up to and including the first one exceeded, so the decoder's short circuit matches |
| RateLimit.Allow | internal/policy/ratelimit.go:78-133 | Script and decoder together: allowed exactly when every active window passed; limit, remaining, reset and scope are those of the window reported |
| RateLimit.RemainingCounts | internal/policy/ratelimit.go:102-133 | After a request that is let through, another at the same instant is let through exactly when the decision says something remains, and then one less remains |
| RateLimit.ScriptFrame | internal/policy/ratelimit.go:24-41 | Windows the script did not reach, and unrelated keys, keep their counters |
| RateLimit.DenialsDoNotExtend | internal/policy/ratelimit.go:29-38 | No request moves the expiry of a live window |
| RateLimit.OneLifetime | internal/policy/ratelimit.go:24-41 | One window lifetime grants at most what is left of its limit |
| RateLimit.RateBound | internal/policy/ratelimit.go:24-41 | Over any run with a monotone clock, any interval of one duration holds at most 2 * limit - 1 granted requests |
| RateLimit.RateBoundTightIff | internal/policy/ratelimit.go:24-41 | For every limit and duration, some run reaches the bound if and only if the window is longer than one tick or the limit is 1 |
| RateLimit.InstantBound | internal/policy/ratelimit.go:24-41 | At a single instant at most the limit is granted |
| RateLimit.RuleConfigured | internal/policy/ratelimit.go:147-154 | The keys of a rule's windows never collide with each other or with another client's |
| RateLimit.RuleRate | internal/policy/ratelimit.go:146-154 | That bound in one second, minute, hour and day, for each number of a client's rule |
| RateLimit.GatewayRate | internal/policy/ratelimit.go:78-154 | The bound for every client and rule window under any mix of requests of all clients |
| Breaker.Breaker.Allow | internal/circuit/breaker.go:61-82 | The whole new state and the decision |
| Breaker.Breaker.Report | internal/circuit/breaker.go:84-107 | The whole new state |
| Breaker.SlotsAreGrants | internal/circuit/breaker.go:61-143 | In every run halfOpenInUse is the number of grants since half-open was entered, at most MaxRequests, and 0 outside half-open |
| Breaker.FailuresAreReports | internal/circuit/breaker.go:84-143 | In every run, while closed, failures counts exactly the failed reports of the current window and is below the threshold |
| Breaker.RequestsAreGrants | internal/circuit/breaker.go:61-82 | In every run, while closed, requests counts exactly the calls granted in the current window |
| Breaker.WindowBeginsIff | internal/circuit/breaker.go:109-119 | A new counting window begins exactly with the first event, with one an interval or more after the start of the current window, and with the report that closes the breaker |
| Breaker.ReportOpensIff | internal/circuit/breaker.go:97-128 | In every run, a report to a closed breaker opens it if and only if the failed reports of the window reach the threshold, or the ratio is positive, some call was granted in the window and the failed reports are at least that part of the calls granted |
| Breaker.CallMoves | internal/circuit/breaker.go:61-82 | In every run: a closed breaker grants a call; an open one, as its first probe, exactly from the timeout after the event that opened it; a half-open one exactly while it has granted fewer than MaxRequests |
| Breaker.ReportMoves | internal/circuit/breaker.go:84-107 | In every run: a report does nothing while open, and in half-open a success closes and a failure opens |
| Breaker.OpenProtects | internal/circuit/breaker.go:61-107 | From opening until a report in half-open, at most MaxRequests calls are granted, none before the timeout has passed |
| Breaker.ReportSettles | internal/circuit/breaker.go:84-107 | Any report in half-open closes or reopens the breaker with its counters reset |
| Breaker.WedgedWithoutReport | internal/connector/service.go:208-227 | Half-open with all probes out and no report: no call is ever granted again |
| Breaker.WedgedIff | internal/circuit/breaker.go:61-107 | After any run, calls alone can never be granted again if and only if the breaker is half-open and has granted all its probes since it became so |
| Breaker.EveryBreakerWedges | internal/circuit/breaker.go:61-107 | For every setting, a run of failures and unreported probes that wedges the breaker |
| Breaker.LeavesFullIff | internal/connector/service.go:208-227 | A breaker with all probes out gets out of that state during a run if and only if the run holds a report |
| Registry.Registry.Lookup | internal/connectorpool/registry.go:47-55 | The first critical section: the entry and whether it serves the version |
| Registry.Registry.Install | internal/connectorpool/registry.go:62-76 | The second critical section: installs unless an entry of the version appeared meanwhile |
| Registry.Registry.Remove | internal/connectorpool/registry.go:79-87 | Removes and returns the entry |
| Registry.AlwaysGenuine | internal/connectorpool/registry.go:47-87 | In every interleaving, an entry's pool was built for that id and version |
| Registry.SettleBalancedIff | internal/connectorpool/registry.go:62-76 | The second critical section keeps every pool accounted for exactly once if and only if what it replaces is what the first section saw |
| Registry.AlwaysBalancedIff | internal/connectorpool/registry.go:47-87 | For every schedule: every pool is accounted for exactly once all along if and only if every installation replaces the entry its builder saw |
| Registry.EveryPoolOnce | internal/connectorpool/registry.go:47-87 | When overlapping acquisitions of an id share a version and no invalidation overlaps them, every pool ever built is in hand, registered or closed, exactly once |
| Registry.QuiescentPools | internal/connectorpool/registry.go:47-87 | When such a run comes to rest, every pool is either registered and open or closed exactly once |
| Registry.LostPool | internal/connectorpool/registry.go:54-74 | A run with two versions after which a pool is neither registered nor closed |
| ConnCache.ConnCache.Lookup | internal/connector/conncache.go:81-87 | A hit exactly on an unexpired entry |
| ConnCache.ConnCache.Store | internal/connector/conncache.go:90-99 | The entry expires one TTL after it is stored |
| ConnCache.AlwaysInv | internal/connector/conncache.go:78-104 | In every run every resolution is a version the row really had, read less than one TTL and one load time before the call |
| ConnCache.FreshAfterBump | internal/connector/conncache.go:78-104 | A call that begins one TTL and one load time after a version became current, less one tick, gets that version or a later one |
| ConnCache.NewPoolAfterBump | internal/store/catalog.go:63-69 | Together with the registry: such a call is served by a pool built for that version or a later one |
| ConnCache.StaleIff | internal/connector/conncache.go:78-104 | For every TTL, load time and moment of change, a call can be given the old version in some run if and only if it begins before that moment |
| JsonDiff.Ordered | internal/adminsvc/api_lifecycle.go:66-77 | The keys in ascending order, each once |
| JsonDiff.DiffValue | internal/adminsvc/api_lifecycle.go:62-102 | The recursion over sorted keys records into the output what the specification records |
| JsonDiff.DiffJSON | internal/adminsvc/api_lifecycle.go:43-60 | Fails exactly on malformed input; otherwise it is the diff of the two documents, no bytes standing for `{}`, and is empty exactly when they are equal |
| JsonDiff.WholeChange | internal/adminsvc/api_lifecycle.go:96-101 | A change between values that are not both objects is one change recorded under `$` |
| JsonDiff.EmptyIffEqual | internal/adminsvc/api_lifecycle.go:62-102 | For all values the diff is empty if and only if they are equal |
| JsonDiff.DiffInverts | internal/adminsvc/api_lifecycle.go:62-102 | For all values the diff taken the other way round is the inverse diff |
| JsonDiff.DiffExact | internal/adminsvc/api_lifecycle.go:62-102 | For objects with non-empty, dot-free keys the diff records at each dotted path exactly the addition, removal or change at that place, and nothing else |
| JsonDiff.PathsPrefixFree | internal/adminsvc/api_lifecycle.go:62-102 | No recorded path lies under another |
| JsonDiff.RecordedOnce | internal/adminsvc/api_lifecycle.go:37-41 | No path is recorded in two of the three maps |
| JsonDiff.PatchRestores | internal/adminsvc/api_lifecycle.go:43-102 | Applying the diff to the old document gives the new one |
| JsonDiff.UndoRestores | internal/adminsvc/api_lifecycle.go:43-102 | Applying the inverse diff to the new document gives the old one back |
| JsonDiff.UnsafeKeyConfuses | internal/adminsvc/api_lifecycle.go:79-82 | For every key that is empty or contains a dot there are two different new documents with the same diff |
| JsonDiff.SafeKeysNeverConfuse | internal/adminsvc/api_lifecycle.go:79-82 | With all other keys that never happens |
| Lifecycle.Store.UpdateAPI | internal/store/catalog.go:235-272 | The new content; PUBLISHED falls back to DRAFT with the next version, other statuses stay |
| Lifecycle.Store.SetAPIStatus | internal/store/catalog.go:307-321 | Sets the status whatever it was, or reports that there is no such definition |
| Lifecycle.Store.PublishAPI | internal/store/catalog.go:340-383 | Adds the next revision and moves APPROVED to PUBLISHED, or changes nothing |
| Lifecycle.Store.DeleteAPI | internal/store/catalog.go:455-464 | Deletes the definition with its revisions |
| Lifecycle.Store.ListPublishedAPIs | internal/store/catalog.go:158-197 | The newest snapshots of live definitions, or the live definitions when there are no snapshots |
| Lifecycle.NumberedLatest | internal/store/catalog.go:353-357 | With revisions 1..n the largest number is n and the newest row is the last |
| Lifecycle.AlwaysInv | internal/adminsvc/handlers_apis.go:181-274 | In every interleaving of handlers: revisions are 1..n, every snapshot passed the publish validation, every PUBLISHED definition has one |
| Lifecycle.CatalogueExact | internal/store/catalog.go:155-197 | In every interleaving the gateway loads exactly the PUBLISHED definitions, each as its newest and validated revision; the fallback never shows an unversioned one |
| Lifecycle.UnversionedShownIff | internal/store/catalog.go:158-197 | For any tables, a live definition without a revision is in the catalogue exactly when no live definition has one |
| Lifecycle.EditKeepsCatalogueIff | internal/store/catalog.go:166-168 | An edit leaves the catalogue unchanged if and only if the definition is not PUBLISHED |
| Lifecycle.EnteredFromApproved | internal/store/catalog.go:369-378 | PUBLISHED is entered only from APPROVED, by committing a publish |
| Lifecycle.LiveWasApproved | internal/adminsvc/api_lifecycle.go:12-30 | Over whole runs: a live definition was APPROVED, went live there, and has been live since |
| Lifecycle.HistoryKept | internal/store/catalog.go:337-383 | Revisions are only appended until the definition is deleted |
| Lifecycle.NothingLeavesDraft | internal/store/catalog.go:307-321 | If every status write of the status handlers is refused, every definition stays in DRAFT and the catalogue is empty |
| Lifecycle.MoveServedIff | internal/adminsvc/handlers_apis.go:216-274 | From any state, a status request that nothing disturbs is carried out if and only if the status is one step further along the lifecycle and is not PUBLISHED; otherwise nothing is written |
| Lifecycle.PublishServedIff | internal/adminsvc/handlers_apis.go:181-214 | From any state, a publication that nothing disturbs succeeds if and only if the definition is APPROVED and its content valid, and adds one revision with that content |
| Lifecycle.ReachableIff | internal/adminsvc/api_lifecycle.go:16-30 | Allowed moves lead from one status to another if and only if the other is further along: all three terminal statuses can be reached and none can be left |
| Lifecycle.MoveLegalIff | internal/adminsvc/handlers_apis.go:216-274 | A status write follows the lifecycle if and only if the status is still the one that was read |
| Lifecycle.PublishCurrentIff | internal/adminsvc/handlers_apis.go:181-214 | What goes live is the definition as it stands if and only if its content is still the one that was read |
| Lifecycle.TerminalForever | internal/adminsvc/api_lifecycle.go:16-30 | When no definition changes between a handler's read and its write, terminal statuses are never left |
| Lifecycle.AlwaysInStep | internal/store/catalog.go:235-383 | In such runs the version counts the revisions, and the newest snapshot of a live definition is its content |
| Lifecycle.CatalogueIsCurrent | internal/store/catalog.go:158-197 | In such runs the gateway catalogue is exactly the PUBLISHED definitions as they stand |
| Lifecycle.StalePublish | internal/adminsvc/handlers_apis.go:181-214 | A run in which an edit during a publish makes the gateway serve other content |
| Lifecycle.TerminalRevived | internal/adminsvc/handlers_apis.go:216-243 | A run in which a late approval revives a DISABLED definition |
| ResponseCache.CacheVariantParams | internal/gatewaysvc/service.go:586-599 | The variant map, whatever order the Go maps are walked in |
| ResponseCache.VariantDetermines | internal/gatewaysvc/service.go:586-599 | Without name clashes, equal variants mean equal parameters, limit, offset and joined query values |
| ResponseCache.NameLostIff | internal/gatewaysvc/service.go:588-597 | A parameter can be lost from the key if and only if its name is `ddag_limit`, `ddag_offset` or begins with `query_` |
| ResponseCache.ValuesUniqueIff | internal/gatewaysvc/service.go:593-597 | A list of values is told apart from every other list if and only if it is a single value without a comma |
| ResponseCache.PrefixIffSameApi | internal/cache/cache.go:97-101 | A key carries an API's prefix exactly when it is a key of that API |
| ResponseCache.Redis.PurgePrefix | internal/cache/cache.go:113-135 | Removes exactly the keys with the prefix; after an error it has removed nothing else; counts the keys named before the error |
| JsonText.TextReads | internal/cache/cache.go:52 | Every string is read back, escapes and all, from the text that is marshalled for it |
| JsonText.EscapedIff | internal/cache/cache.go:52 | A character stands for itself in that text unless it is a control character or one of seven others |
| JsonText.NothingUnsafe | internal/cache/cache.go:52 | The characters that HTML or JavaScript would misread never stand in that text |
| JsonReader.MarshalReads | internal/cache/cache.go:52 | A reader of JSON reads back every value from the text that is marshalled for it, wherever a delimiter or nothing follows |
| JsonReader.MarshalCancel | internal/cache/cache.go:52 | Reading a marshalled value off the front of a text is unambiguous |
| JsonReader.MarshalInjective | internal/cache/cache.go:52 | Different JSON values never marshal to the same text |
| ResponseCache.KeyDetermines | internal/cache/cache.go:47-55 | Equal keys of plain requests mean the same API, SQL, parameters, limit and offset, and the same client when varied |
| ResponseCache.AnswersOwnRequest | internal/gatewaysvc/service.go:358-376 | In every run, under an unchanged definition and for plain requests, every response from the cache, a shared load or the direct path is an answer to the caller's own connector request |
| ResponseCache.WritesNeverShared | internal/gatewaysvc/service.go:476-531 | While an API's definition stays a write, every answer is of the call's own execution: never cached, never shared |
| ResponseCache.PurgeExact | internal/cache/cache.go:97-101 | In every reachable state a purge removes the answers of its API and no others |
| ResponseCache.RepeatedValueShares | internal/gatewaysvc/service.go:593-597 | Two requests with the same key of which the builder makes queries with different orders |
| ResponseCache.WriteAnsweredFromCache | internal/gatewaysvc/service.go:358-376 | A run in which a definition republished with a write method is answered with a cached read |
| ResponseCache.WriteFromCacheIff | internal/gatewaysvc/service.go:358-376 | In every run, a call under a write definition is answered from the cache at its lookup if and only if its rule is enabled and its key is there; any such entry was loaded under another, read definition of the same API that was published before |
| RequestLog.RequestLogger.constructor | internal/gatewaysvc/reqlogger.go:37-57 | A positive buffer and a batch size between 1 and 4000, whatever is configured |
| RequestLog.RequestLogger.Enqueue | internal/gatewaysvc/reqlogger.go:71-80 | The record joins the channel, or is dropped and counted when the channel is full |
| RequestLog.RequestLogger.Add | internal/gatewaysvc/reqlogger.go:102-107 | The record joins the batch, which is handed over as soon as it is full |
| RequestLog.RequestLogger.Drain | internal/gatewaysvc/reqlogger.go:112-121 | Leaves the channel and the batch empty |
| RequestLog.AlwaysInv | internal/gatewaysvc/reqlogger.go:82-127 | In every run: accepted records are those handed over, then the batch, then the channel, in order; offered is accepted plus dropped; every batch handed over has 1 to batchSize records |
| RequestLog.CatchesUp | internal/gatewaysvc/reqlogger.go:122-127 | In every run a running flusher, once it has taken what is in the channel, hands over everything accepted so far at the next tick |
| RequestLog.ShutsDown | internal/gatewaysvc/reqlogger.go:111-121 | In every run a cancelled flusher takes no further turn, and its drain hands over everything accepted so far and exits |
| RequestLog.ExitHandsOver | internal/gatewaysvc/reqlogger.go:111-121 | When the flusher exits, everything accepted so far has been handed over |
| RequestLog.DrainHandsOver | internal/gatewaysvc/reqlogger.go:111-121 | Draining hands over everything in order and drops nothing |
| RequestLog.ItoaMethod | internal/store/logs.go:206-218 | The decimal digits of any non-negative 64-bit number fit the 20-byte buffer; a negative number gives the empty string |
| RequestLog.InsertBatch | internal/store/logs.go:104-132 | The statement, column list included, and the arguments of a batch; nothing for an empty one |
| RequestLog.PlaceholdersConsecutive | internal/store/logs.go:114-126 | Read back from the text, the placeholders are 1, 2, ..., 14n |
| RequestLog.TuplesMatchRows | internal/store/logs.go:114-126 | The text has one parenthesised tuple per row, holding that row's 14 placeholders |
| RequestLog.ColumnsRead | internal/store/logs.go:110-112 | Read from the text of the statement, its column list is the 14 columns in order |
| RequestLog.PlaceholderNames | internal/store/logs.go:108-128 | Read from the text of the statement, the placeholder at place j of tuple i names the argument holding, of record i, the field that the j-th listed column is for; a full batch uses at most 56000 of 65535 parameters |

## Left out

- HTTP handlers, middleware, the dashboard, drivers, gRPC transport and connector clients: input, output and foreign code.
- JWT, RSA, AES-GCM, HMAC and bcrypt: cryptography would be uninterpreted here.
- Configuration, metrics, logging, mail, backup, seeding and most store access: thin wrappers.
- Router, RBAC, scopes, IP rules, error tables and the gateway's own backpressure manager: would only add easy members.
- `ValidateForExecution` and the promotion bundle: would only add easy members.
- The write-statement keyword heuristic, validation regular expressions and `coerce` are function parameters, not modelled.
- UTF-8: strings are code points; a template that is not valid UTF-8 is not part of this model.
- Letter case beyond ASCII: of the characters that are not ASCII, only those whose case mapping is an ASCII letter are mapped.
- QueryMeaning.CondMeans: how a database compares two values is a parameter; an escape character in a LIKE pattern is not modelled.
- RateLimit.Redis.Eval: a window with a duration of zero or less, for which PEXPIRE would delete the key, is not modelled; rules never produce one.
- Breaker.Breaker.Report: the failure ratio is compared as a real number, not in floating point.
- RequestLog.InsertBatch: the line breaks in the column list are written as spaces; failed inserts are logged and not retried, so handing over is where the model ends.
- RequestLog.ExitHandsOver: records accepted after the flusher has exited stay in the channel.
- Lifecycle.Store.SetAPIStatus: whether the driver accepts the surplus argument is not modelled; a refused statement is the `Abandon` step.
- Lifecycle.CatalogueExact: JSON encoding of snapshots is taken to preserve content.
- ResponseCache.AnswersOwnRequest: entry expiry and eviction of unreadable entries are an unconditional `Evict` step; the age of a cached answer is not bounded.
- ResponseCache.Redis.PurgePrefix: the cursor of SCAN is not modelled, only its guarantee that a full iteration names every key present throughout.
- Pagination.BindAndPaginate: a driver placeholder that the template itself spells is part of the template's text; which argument a driver gives it is not modelled.
- Rereading.RereadIff: the database's own reading is that of the dialect's quotes and comments; a Postgres dollar quote in the bound text is read as code, since `$` also begins a placeholder.
- Admission and connection cache timeouts are steps that can happen at any time, not clock readings.
