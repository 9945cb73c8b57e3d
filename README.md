# SQLSeal core, modelled in Dafny

SQLSeal is an Obsidian plugin. It runs SQL over CSV files and over the vault's
own notes. A note holds `sqlseal` code blocks. Each block declares tables with
`TABLE <name> = file(<ref>)`, may carry some free text, and ends with a
`SELECT` query. This project models the core of that pipeline and proves what
it promises.

- **`Grammar`** (`parser.dfy`): the block language, as `parseLanguage`'s test
  file pins it down.
  - A block is split into lines.
  - Blank lines and declarations are read first. A line whose first word is
    `table`, in any letter case, but which does not parse is an error.
  - The first line that starts with `select`, in any letter case and after
    any indentation, begins the query. The lines before it are the
    intermediate content.
  - Both parts are trimmed. A `queryPart` of `""` means the block has no query.
  - The parser's own source, `src/grammar/newParser.ts`, is not part of this
    model.
- **`Observers`** (`observers.dfy`): the topic-keyed observer registry the
  controller acts through (`registerObserver`, `unregisterObserversByTag`,
  `fireObservers`, `hasAnyObserver`). Each topic holds its subscriptions in
  registration order.
- **`CodeblockHandler`** (`handler.dfy`): `SqlSealCodeblockHandler` as a class.
  - Its fields are the registry, the sync store, the attached elements, the
    events shown so far, and the pending asynchronous work.
  - Each method is proved against a step function of the whole state:
    `setupTable`, `setupTables`, `setupSelect` and the handler `getHandler`
    returns.
  - The constructor and the entry points `SetConnected`, `SetupTable`,
    `SetupTables`, `RunTask`, `SetupSelect` and `HandleBlock` keep the invariant
    that a `file:<url>` topic holds only load callbacks (`RegisterObserver`
    alone does not, as it registers whatever callback it is given).
  - Asynchrony is explicit:
    - a load callback records the load it requests and leaves its continuation
      (what follows the `await`) as a pending task;
    - `requestAnimationFrame` leaves a pending fire;
    - the host runs pending tasks one at a time, in any order.
- **`HandlerProperties`** (`handler_props.dfy`): what the controller promises.
  - Firing a file topic only requests loads.
  - `setupTable` has three outcomes: same url, other url, never synced.
  - A finished load records its url, after which the table is not reloaded.
  - How a query subscribes, renders first and re-fires synced tables.
  - How errors are reported.
  - What the block handler registers.
  - The drop statement as written, beside the corrected one.
- **`WorkerDb`** (`database.dfy`): the SQL worker's row and parameter shaping.
  - `formatData` and `recordToBindParams`, with their properties.
  - `toObjectArray` over a cursor class.
  - The `WorkerDatabase` class, whose database is the log of statements run
    against it, each with its bound parameters. Its methods are
    `insertData`, `updateData`, `deleteData` and `createTableNoTypes`.
- **`ImageCell`** (`image.dfy`): the `img` cell function's `prepare`. It covers
  non-local links, trimming, `![[...]]` unwrapping, resolution against the
  note's folder, and the missing-file text.
- `Strings` and `Wrappers` hold the string and option/result helpers. Among
  them are JavaScript's `trim`, `split`, `join` and case-insensitive
  `startsWith`.

## Model

| member | source | states |
|---|---|---|
| Grammar.ParseDeclaration | src/grammar/parser.test.ts:88-107 | a parsed declaration comes only from a line whose first word is `table` in some letter case, and its table name is non-empty with no whitespace or `=` |
| Grammar.ScanHeader | src/grammar/parser.test.ts:26-41 | the declaration phase stops at the first content line or fails at the first malformed declaration, and every line before that point is blank or a declaration |
| Grammar.ScanHeaderTables | src/grammar/parser.test.ts:26-41 | the tables read are exactly those the header lines declare, in order |
| Grammar.FirstQueryLineSpec | src/grammar/parser.test.ts:43-66 | the query starts at the first line that begins with `select`, and no earlier line does |
| Grammar.DeclarationLineParses | src/grammar/parser.test.ts:88-107 | `TABLE x = file(a.csv)` in any letter case, indented and with trailing whitespace, yields table `x` from file `a.csv` |
| Grammar.CanonicalDeclaration | src/grammar/parser.test.ts:14-24 | a trimmed `<keyword> <name> = file(<ref>)` line yields that name and reference |
| Grammar.DeclarationsInOrder | src/grammar/parser.test.ts:26-41 | consecutive declaration lines contribute their tables, in order, in front of the tables of the rest of the block |
| Grammar.BlankLinesSkipped | src/grammar/parser.test.ts:88-107 | blank lines in front of a block do not change its parse |
| Grammar.ContentThenQuery | src/grammar/parser.test.ts:43-66 | free text followed by a query gives the trimmed text as intermediate content and the trimmed query lines as the query |
| Grammar.QueryOnly | src/grammar/parser.test.ts:6-12 | lines starting with a query give no tables, no intermediate content and the whole trimmed text as the query |
| Grammar.QueryLineIsContentBoundary | src/grammar/parser.test.ts:68-76 | a query line is never read as part of the declaration phase |
| Grammar.QueryKeywordAnyCase | src/grammar/parser.test.ts:78-86 | a one-line block starting with `select` in any letter case, after any indentation, is a query and is kept with its letter case |
| Grammar.SingleQueryLine | src/grammar/parser.test.ts:6-12 | `parseLanguage` of a single query line gives no tables, no content and the trimmed line as the query |
| Grammar.BlankLinesAroundDropped | src/grammar/parser.test.ts:88-107 | blank lines before and after a part do not change the trimmed part |
| Grammar.BlockShape | src/grammar/parser.test.ts:43-66 | declarations, blank lines, text, then a query parse to the declared tables, the trimmed text and the trimmed query |
| Grammar.BlockText | src/grammar/parser.test.ts:43-66 | the same for the block's source text, joined with newlines |
| ImageCell.SliceEmbed | src/cellParser/parser/image.ts:25-27 | `slice(3, -2)` drops three leading and two trailing characters, and gives `""` when fewer than five remain |
| ImageCell.NormalisedHref | src/cellParser/parser/image.ts:24-27 | a local reference is trimmed, null reads as `""`, and a `![[`-prefixed reference is unwrapped |
| ImageCell.ParentFolder | src/cellParser/parser/image.ts:28-34 | the note's folder is `""` without a note or when the note is not in the vault |
| ImageCell.Prepare | src/cellParser/parser/image.ts:20-41 | a non-local reference is kept as given; a local one gives the found file's resource path, or the text `File does not exist` exactly when no file is at the lookup path |
| ImageCell.NullHrefIsEmpty | src/cellParser/parser/image.ts:24 | a null reference is normalised like an empty one |
| ImageCell.EmbedUnwrapped | src/cellParser/parser/image.ts:24-27 | `![[target]]`, with any whitespace around it, normalises to `target` |
| ImageCell.LookupWithoutNote | src/cellParser/parser/image.ts:35 | without a note the lookup path is the normalised reference itself |
| ImageCell.LookupFromNote | src/cellParser/parser/image.ts:28-35 | with a note the lookup path is its folder, `/`, then the reference; an unknown note gives `/` plus the reference |
| Observers.Register | src/SqlSealCodeblockHandler.ts:44-54 | registering appends to the topic's subscribers and leaves every other topic as it was |
| Observers.Untagged | src/SqlSealCodeblockHandler.ts:95-98 | after unregistering a tag a topic keeps exactly its subscriptions with other tags |
| Observers.UntaggedKeeps | src/SqlSealCodeblockHandler.ts:95-98 | each kept subscription occurs as many times as before and in its original order; the tagged ones are gone |
| Observers.WithoutTag | src/SqlSealCodeblockHandler.ts:95-98 | unregistering a tag filters every topic |
| Observers.UntaggedIdempotent | src/SqlSealCodeblockHandler.ts:95-98 | filtering twice by the same tag removes nothing more |
| Observers.WithoutTagIdempotent | src/SqlSealCodeblockHandler.ts:95-98 | unregistering the same tag twice equals doing it once |
| Observers.RegisterThenUnregister | src/SqlSealCodeblockHandler.ts:93-105 | unregistering a document's tag undoes any registration made under that tag |
| CodeblockHandler.PrefixTables | src/SqlSealCodeblockHandler.ts:163-170 | each declared table keeps its file and gets its name through `prefixedIfNotGlobal` with the note's prefix |
| CodeblockHandler.TableSignals | src/SqlSealCodeblockHandler.ts:125-130 | one table registration per table |
| CodeblockHandler.WithoutTagWellFormed | src/SqlSealCodeblockHandler.ts:95-98 | unregistering a tag keeps `file:` topics free of render callbacks |
| CodeblockHandler.CallbackWellFormed | src/SqlSealCodeblockHandler.ts:93-105 | running one callback keeps `file:` topics free of render callbacks |
| CodeblockHandler.CallbacksWellFormed | src/SqlSealCodeblockHandler.ts:93-105 | so does running a list of callbacks |
| CodeblockHandler.FiresWellFormed | src/SqlSealCodeblockHandler.ts:106 | so does firing a list of topics |
| CodeblockHandler.FireSyncedWellFormed | src/SqlSealCodeblockHandler.ts:111-115 | so does re-firing the synced tables |
| CodeblockHandler.RegisterAllKeepsFiles | src/SqlSealCodeblockHandler.ts:93-105 | subscribing a query to its tables leaves every `file:` topic as it was |
| CodeblockHandler.SetupTableWellFormed | src/SqlSealCodeblockHandler.ts:37-74 | `setupTable` registers only a load callback on a `file:` topic and keeps the invariant |
| CodeblockHandler.SetupTablesWellFormed | src/SqlSealCodeblockHandler.ts:31-35 | `setupTables` keeps the invariant |
| CodeblockHandler.TaskWellFormed | src/SqlSealCodeblockHandler.ts:44-54 | finishing a load or a deferred fire keeps the invariant |
| CodeblockHandler.SetupSelectWellFormed | src/SqlSealCodeblockHandler.ts:76-123 | `setupSelect` keeps the invariant |
| CodeblockHandler.SqlSealCodeblockHandler.constructor | src/SqlSealCodeblockHandler.ts:20-29 | a new handler works on the shared registry and the sync store it is given, with their entries, and no events or pending work yet; the invariant holds |
| CodeblockHandler.SqlSealCodeblockHandler.SetConnected | src/SqlSealCodeblockHandler.ts:95 | the host attaches or detaches an element, and nothing else changes |
| CodeblockHandler.SqlSealCodeblockHandler.RegisterObserver | src/SqlSealCodeblockHandler.ts:44 | the registry gains the subscription, and nothing else changes |
| CodeblockHandler.SqlSealCodeblockHandler.UnregisterObserversByTag | src/SqlSealCodeblockHandler.ts:97 | the registry loses the tag's subscriptions, and nothing else changes |
| CodeblockHandler.SqlSealCodeblockHandler.GetSync | src/SqlSealCodeblockHandler.ts:41 | the recorded url is returned exactly when the note has a record for the table |
| CodeblockHandler.SqlSealCodeblockHandler.RemoveSync | src/SqlSealCodeblockHandler.ts:70 | the record is removed, and nothing else changes |
| CodeblockHandler.SqlSealCodeblockHandler.RegisterSync | src/SqlSealCodeblockHandler.ts:50-51 | the record maps to the new url, and nothing else changes |
| CodeblockHandler.SqlSealCodeblockHandler.RunCallback | src/SqlSealCodeblockHandler.ts:44-54 | the callback's step, on the object's fields |
| CodeblockHandler.SqlSealCodeblockHandler.FireObservers | src/SqlSealCodeblockHandler.ts:73 | the topic's subscribers at the time of the call run in order |
| CodeblockHandler.SqlSealCodeblockHandler.SetupTable | src/SqlSealCodeblockHandler.ts:37-74 | the new state is `AfterSetupTable` of the old one, and the invariant is kept |
| CodeblockHandler.SqlSealCodeblockHandler.SetupTables | src/SqlSealCodeblockHandler.ts:31-35 | the tables are set up one after the other, in order |
| CodeblockHandler.SqlSealCodeblockHandler.RunTask | src/SqlSealCodeblockHandler.ts:44-54 | the chosen pending task leaves the queue and runs |
| CodeblockHandler.SqlSealCodeblockHandler.SetupSelect | src/SqlSealCodeblockHandler.ts:76-123 | the new state is `AfterSetupSelect` of the old one, and the invariant is kept |
| CodeblockHandler.SqlSealCodeblockHandler.SubscribeQuery | src/SqlSealCodeblockHandler.ts:92-115 | it subscribes, fires the global tables, renders when they have no observer, then re-fires the synced tables |
| CodeblockHandler.SqlSealCodeblockHandler.HandleBlock | src/SqlSealCodeblockHandler.ts:153-183 | the new state is `AfterBlock` of the old one, and the invariant is kept |
| CodeblockHandler.SqlSealCodeblockHandler.HandleParsed | src/SqlSealCodeblockHandler.ts:161-180 | the parse error is shown, or the prefixed tables are registered in order, followed by the query when there is one |
| HandlerProperties.FireLoads | src/SqlSealCodeblockHandler.ts:44-54 | running load callbacks appends one load request and one pending continuation per callback, in order, and changes nothing else |
| HandlerProperties.CallbacksKeep | src/SqlSealCodeblockHandler.ts:93-105 | no callback touches the sync store or the attached elements, and events and pending work only grow |
| HandlerProperties.FiresKeep | src/SqlSealCodeblockHandler.ts:106 | firing topics leaves the sync store alone and only appends events |
| HandlerProperties.DetachedRenderUnsubscribes | src/SqlSealCodeblockHandler.ts:94-103 | a render for a detached element leaves no subscription of its document, and it still shows the loader and then the data |
| HandlerProperties.SetupTableOutcome | src/SqlSealCodeblockHandler.ts:37-74 | one load is always registered on the file's topic. A table synced from the same url is not reloaded; only a deferred table fire is queued. One synced from another url is dropped, its record removed and the file's loads run. A new table has the file's loads run. |
| HandlerProperties.SetupTableLoadsLast | src/SqlSealCodeblockHandler.ts:65-73 | unless already synced from the same url, the last event is the load request of this table from this url, and its continuation is queued last |
| HandlerProperties.FinishLoadRecords | src/SqlSealCodeblockHandler.ts:44-54 | a finished load leaves exactly one record, mapping the table to the url it was loaded from; a failed load changes nothing |
| HandlerProperties.CallbacksRender | src/SqlSealCodeblockHandler.ts:94-103 | a run of callbacks shows the data of every render callback in it, after the events already recorded |
| HandlerProperties.FinishLoadRenders | src/SqlSealCodeblockHandler.ts:53 | after a finished load, every query subscribed to `table:<prefixedName>` shows its data again |
| HandlerProperties.LoadedTableNotReloaded | src/SqlSealCodeblockHandler.ts:56-64 | once a table's load has finished, setting it up again shows nothing and changes no record |
| HandlerProperties.RegisterAllSubscribes | src/SqlSealCodeblockHandler.ts:93-105 | each table's topic gains the query's subscription once per mention, after its earlier subscribers, and nothing else changes |
| HandlerProperties.FirstRenderWithoutGlobalObservers | src/SqlSealCodeblockHandler.ts:106-109 | for a query that reads neither `files` nor `tags`, with no observer on their topics, the data is shown right after subscribing, with no loader |
| HandlerProperties.SyncedTables | src/SqlSealCodeblockHandler.ts:111-115 | the tables kept are exactly those of the list with a sync record for the note |
| HandlerProperties.FireSyncedSpec | src/SqlSealCodeblockHandler.ts:111-115 | the re-fire fires the topics of exactly the tables with a sync record for the note, in the query's order, and skips the others |
| HandlerProperties.SubscribeQueryOutcome | src/SqlSealCodeblockHandler.ts:93-115 | after subscribing and firing the global tables, the query renders directly if and only if no global table topic has an observer; then the tables synced before the call are fired |
| HandlerProperties.NoTablesWaitsForGlobals | src/SqlSealCodeblockHandler.ts:106-109 | a query that reads no table renders nothing of its own while a global table topic still has an observer |
| HandlerProperties.SetupSelectReportsRewriteError | src/SqlSealCodeblockHandler.ts:116-121 | a failed rewrite adds exactly one event and changes nothing else. That event is the Live Preview notice exactly for a range error with empty frontmatter, and otherwise the error |
| HandlerProperties.SetupSelectReportsFrontmatterError | src/SqlSealCodeblockHandler.ts:80 | a failure to resolve the frontmatter after a successful rewrite is reported the same way, and nothing else changes |
| HandlerProperties.TableSignalsAt | src/SqlSealCodeblockHandler.ts:125-130 | the i-th registration is the i-th table's name and url |
| HandlerProperties.ParsedRegistersTables | src/SqlSealCodeblockHandler.ts:163-172 | after a parse, every declared table is registered in order under `prefixedIfNotGlobal(name, globals, hash(path))` with its own url, and the registry, records and pending work are untouched |
| HandlerProperties.BlockRegistersTables | src/SqlSealCodeblockHandler.ts:156-172 | a block that parses shows the loader first, then registers its declared tables in that way |
| HandlerProperties.ParsedQueryRegistered | src/SqlSealCodeblockHandler.ts:174-177 | the last event is a query registration exactly when the query part is non-empty and its rewriting and frontmatter both succeed |
| HandlerProperties.BlockQueryRegistered | src/SqlSealCodeblockHandler.ts:174-177 | the same for the whole block handler |
| HandlerProperties.BlockParseError | src/SqlSealCodeblockHandler.ts:178-180 | a block that does not parse shows the loader and then the error, and registers nothing |
| HandlerProperties.DeclaredTablesRegistered | src/SqlSealCodeblockHandler.ts:161-172 | end to end: a block of declarations, blank lines, text and query registers exactly its declared tables, in order, prefixed |
| HandlerProperties.DropAsWrittenRejected | src/SqlSealCodeblockHandler.ts:67-69 | the statement as written puts a bind parameter where a table name must be, so it cannot be prepared |
| HandlerProperties.ChangedUrlAsWritten | src/SqlSealCodeblockHandler.ts:65-71 | as written, a changed url throws, keeps the old record and requests no load; corrected, the record is removed and the new load is the last event |
| HandlerProperties.DropStatementNamesTable | src/SqlSealCodeblockHandler.ts:67-69 | the corrected statement can be prepared and drops exactly the named table |
| WorkerDb.FormatValue | src/database/worker/database.ts:24-48 | every stored value is NULL, a number or a text. Booleans become 1 and 0. The result is NULL exactly for the other falsy values. Objects and arrays become their JSON. Other SQL values pass through. |
| WorkerDb.FormatDataKeys | src/database/worker/database.ts:24-48 | `formatData` keeps exactly the record's keys, in order |
| WorkerDb.FormatDataLookup | src/database/worker/database.ts:24-48 | each key's formatted value is the format of its original value |
| WorkerDb.FormatValueStable | src/database/worker/database.ts:26-37 | formatting twice equals formatting once, except for `false`, which becomes 0 and then NULL |
| WorkerDb.RecordToBindParams | src/database/worker/database.ts:19-22 | the number of entries is preserved |
| WorkerDb.BindParamsRoundTrip | src/database/worker/database.ts:19-22 | dropping the `@` again gives back the record |
| WorkerDb.BindParamsLookup | src/database/worker/database.ts:19-22 | parameter `@k` carries the record's value under `k` |
| WorkerDb.BindParamsKeys | src/database/worker/database.ts:19-22 | the i-th parameter name is `@` followed by the i-th key |
| WorkerDb.BindParamsUnique | src/database/worker/database.ts:19-22 | distinct keys give distinct parameter names |
| WorkerDb.InsertColumns | src/database/worker/database.ts:158 | the inserted columns are exactly the record's keys other than `__parsed_extra` |
| WorkerDb.Placeholders | src/database/worker/database.ts:159 | the VALUES list is the columns, each prefixed with `@`, in the same order |
| WorkerDb.InsertPlaceholdersBound | src/database/worker/database.ts:156-163 | every placeholder of an INSERT is bound, to the formatted value of its column |
| WorkerDb.InsertCalls | src/database/worker/database.ts:156-163 | one INSERT per record |
| WorkerDb.InsertCallsAt | src/database/worker/database.ts:156-163 | the i-th INSERT is the i-th record's |
| WorkerDb.AddNew | src/database/worker/database.ts:179 | merging keys keeps the earlier keys in front and adds exactly the missing ones |
| WorkerDb.UnionKeysSpec | src/database/worker/database.ts:179 | the SET fields hold no key twice and are exactly the keys some record has |
| WorkerDb.Assignments | src/database/worker/database.ts:181 | each SET item is `<key> = @<key>` |
| WorkerDb.UpdateCalls | src/database/worker/database.ts:178-185 | one UPDATE per record |
| WorkerDb.UpdateCallsAt | src/database/worker/database.ts:178-185 | the i-th UPDATE binds the i-th record's own values, unformatted |
| WorkerDb.UpdateFieldBound | src/database/worker/database.ts:181-182 | a SET field is bound for a record exactly when the record has that key |
| WorkerDb.DeleteCalls | src/database/worker/database.ts:187-195 | one DELETE per record |
| WorkerDb.DeleteCallsAt | src/database/worker/database.ts:187-195 | each DELETE binds only `@<key>`, to the record's value under the key |
| WorkerDb.SanitisedAll | src/database/worker/database.ts:143 | each column name is sanitised |
| WorkerDb.UniqSpec | src/database/worker/database.ts:143 | `uniq` keeps each name once and loses none, and leaves a list with no repeats unchanged |
| WorkerDb.CreateTableColumns | src/database/worker/database.ts:143-148 | the created table has each sanitised column name exactly once, and no other column |
| WorkerDb.CreateTableDrops | src/database/worker/database.ts:144-146 | the table is dropped first exactly when `noDrop` is false |
| WorkerDb.Cursor.Step | src/database/worker/database.ts:13 | `step()` advances while a row remains, and is false once none does |
| WorkerDb.Cursor.GetAsObject | src/database/worker/database.ts:14 | the current row |
| WorkerDb.ToObjectArray | src/database/worker/database.ts:11-17 | every remaining row, in cursor order, with the cursor exhausted |
| WorkerDb.WorkerDatabase.InsertData | src/database/worker/database.ts:156-163 | the log gains `InsertCalls` of the records |
| WorkerDb.WorkerDatabase.UpdateData | src/database/worker/database.ts:178-185 | the log gains one UPDATE per record over the merged keys, matching on `matchKey`, `id` by default |
| WorkerDb.WorkerDatabase.DeleteData | src/database/worker/database.ts:187-195 | the log gains one DELETE per record, matching on `key`, `id` by default |
| WorkerDb.WorkerDatabase.CreateTableNoTypes | src/database/worker/database.ts:142-149 | the log gains the drop, unless `noDrop` (false by default), and then the create statement |

## Left out

- Database lifecycle and execution. Connecting, the IndexedDB mount, the
  wasm start-up and SQL execution itself are I/O. `run`, `select`,
  `getColumns`, `addColumns`, `clearTable` and `createTableText` only forward
  strings to sql.js. The database is the log of statements and bound
  parameters.
- The custom SQL functions registered on the connection are not modelled.
  They depend on sql.js behaviour that is not visible here.
- `JSON.stringify`, `sanitise`, `hashString`, `prefixedIfNotGlobal`,
  `updateTables`, `resolveFrontmatter` and `isLinkLocal` are parameters.
  The vault's lookup is a map.
- The table and query managers behind `setupTableSignals` and
  `setupQuerySignals` are not part of this model. The block handler records
  their registrations as events. The logger line is left out.
- Rendering (`displayData`, `displayError`, `displayInfo`, `displayLoader`)
  is recorded as events. What `renderSelect` reads from the database is not
  modelled.
- `await this.db.connect()` in the block handler is left out.
- Async interleavings are left out, as are loads that overlap in time. Pending
  work is explicit and the host runs it one task at a time.
- JavaScript's `trim` also removes Unicode spaces. The model removes only the
  ASCII whitespace characters (space, tab, line feed, vertical tab, form feed,
  carriage return).
- JavaScript's `Object.keys` lists integer-like keys first, in numeric order.
  The model keeps insertion order for every key.
- `-0` is falsy in JavaScript. The model writes it as `Num(0.0)` and does not
  tell the two zeros apart.
- Functions and symbols are never values in a record, so `Value` does not
  model them.
- The file reference's `file(` is matched case-sensitively.
  `src/grammar/newParser.ts` is not part of this model, and the test file
  never varies that word's case.
- The parser's error text is a parameter (`parseErrorText`).
- Without declarations, the text before the query is kept as intermediate
  content, as the parser's tests with `HTML` blocks expect.
- CodeblockHandler.SqlSealCodeblockHandler.FireObservers: the subscribers of
  the topic are taken when the fire starts. A callback that unregisters
  observers does not stop the callbacks already selected. This is a reading
  of `SealObserver`, whose code is not part of this model.
- CodeblockHandler.SqlSealCodeblockHandler.HandleParsed: what `updateTables`
  returns for the query part is a parameter. The query manager's use of it is
  recorded as one event.
- `ctx.frontmatter` is modelled as always present. In the source it may be
  undefined, and `Object.keys` would then throw inside the catch.

## Findings

| source | as written | input that shows it | evidently intended | confidence | as-written member | corrected member |
|---|---|---|---|---|---|---|
| src/SqlSealCodeblockHandler.ts:67-69 | `prepare('DROP TABLE :tablename').run({tablename: prefixedName})`: a bind parameter stands where SQLite requires a table name, so preparing the statement throws. `setupTable` then stops after registering the load, before removing the sync record or firing the file. | `setupTable({name: 'x', url: 'b.csv'}, ctx)` while the sync store records `x` for the note as loaded from `a.csv`: the record still says `a.csv`, no load is requested, and the table keeps the old file's rows | `DROP TABLE <prefixedName>`, then removing the record and loading from the new url | not executed | HandlerProperties.AfterSetupTableAsWritten, shown by HandlerProperties.ChangedUrlAsWritten | CodeblockHandler.AfterSetupTable (with DropStatement), proved by HandlerProperties.DropStatementNamesTable and HandlerProperties.SetupTableOutcome |
