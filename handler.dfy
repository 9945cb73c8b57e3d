/** The code-block controller (`SqlSealCodeblockHandler`): keeps the tables a
    note declares in sync with their files and re-renders queries when the
    tables they read change. It acts only through the observer registry and a
    sync store mapping (note path, table name) to the url the table was loaded
    from; loads, drops and renders are recorded as events.

    Asynchrony is made explicit: a load callback records that the load was
    requested and leaves its continuation (what follows the `await`) as a
    pending task, and a `requestAnimationFrame` deferral is a pending fire. The
    host runs pending tasks one at a time, in any order, telling whether the
    load succeeded. */
module CodeblockHandler {
  import opened Wrappers
  import opened Observers
  import Grammar

  type ElementId = nat
  type Params = map<string, string>

  /** The rendering context: the note holding the block, the document id used
      as the subscription tag, and the note's frontmatter. */
  datatype Context = Context(sourcePath: string, docId: string, frontmatter: Params)

  /** A thrown error; only whether it is a `RangeError` matters to the handler. */
  datatype Exception = Exception(isRangeError: bool, message: string)

  /** What `updateTables` returns: the statement with table names rewritten and
      the (prefixed) tables it reads. */
  datatype Rewritten = Rewritten(statement: string, tables: seq<string>)

  datatype Callback =
    | LoadTable(sourcePath: string, prefixedName: string, url: string)
    | RenderQuery(el: ElementId, statement: string, params: Params, docId: string)

  datatype Event =
    | LoadRequested(prefixedName: string, url: string)
    | TableDropped(statement: string)
    | LoaderShown(el: ElementId)
    | Rendered(el: ElementId, statement: string, params: Params)
    | InfoShown(el: ElementId, message: string)
    | ErrorShown(el: ElementId, error: Exception)
    | TableRegistered(name: string, url: string)
    | QueryRegistered(docId: string, tables: seq<string>, el: ElementId, statement: string, params: Params)

  /** Work left for later: the end of a load, or a deferred fire. */
  datatype Task = FinishLoad(sourcePath: string, prefixedName: string, url: string) | FireLater(topic: Topic)

  /** (note path, prefixed table name). */
  type SyncKey = (string, string)

  datatype HandlerState = HandlerState(
    observers: Registry<Callback>,
    syncs: map<SyncKey, string>,
    connected: set<ElementId>,
    events: seq<Event>,
    pending: seq<Task>)

  /** The collaborators whose code is not part of this model. */
  datatype Env = Env(
    hashString: string -> string,
    prefixedIfNotGlobal: (string, seq<string>, string) -> string,
    updateTables: (string, seq<string>, string) -> Result<Rewritten, Exception>,
    resolveFrontmatter: Context -> Result<Option<Params>, Exception>,
    parseErrorText: Grammar.ParseError -> string)

  /** The tables every note shares. */
  const GlobalTables: seq<string> := ["files", "tags"]

  const LivePreviewMessage: string :=
    "Cannot access frontmatter properties in Live Preview Mode. Switch to Reading Mode to see the results."

  /** The statement that drops a table that is loaded from another url. */
  function DropStatement(name: string): string {
    "DROP TABLE " + name
  }

  function TableTopics(names: seq<string>): (r: seq<Topic>)
    ensures |r| == |names|
    ensures forall i :: 0 <= i < |names| ==> r[i] == TableTopic(names[i])
  {
    if |names| == 0 then [] else [TableTopic(names[0])] + TableTopics(names[1..])
  }

  /** The name a declared table gets in the shared database. */
  function PrefixedName(env: Env, ctx: Context, name: string): string {
    env.prefixedIfNotGlobal(name, GlobalTables, env.hashString(ctx.sourcePath))
  }

  // ---------------------------------------------------------------------------
  // The handler's steps as functions of the state.

  /** Runs one callback: a load is requested and its end left pending; a render
      unregisters its document's subscriptions when the element is gone, then
      shows the loader and the data either way. */
  function AfterCallback(st: HandlerState, sub: Subscription<Callback>): HandlerState {
    match sub.callback
    case LoadTable(sp, name, url) =>
      st.(events := st.events + [LoadRequested(name, url)], pending := st.pending + [FinishLoad(sp, name, url)])
    case RenderQuery(el, statement, params, docId) =>
      var observers := if el in st.connected then st.observers else WithoutTag(st.observers, docId);
      st.(observers := observers, events := st.events + [LoaderShown(el), Rendered(el, statement, params)])
  }

  /** Runs the callbacks one after the other. */
  function AfterCallbacks(st: HandlerState, subs: seq<Subscription<Callback>>): HandlerState
    decreases |subs|
  {
    if |subs| == 0 then st else AfterCallbacks(AfterCallback(st, subs[0]), subs[1..])
  }

  /** `fireObservers(topic)`: the topic's subscribers at the time of the call, in order. */
  function AfterFire(st: HandlerState, topic: Topic): HandlerState {
    AfterCallbacks(st, Subscribers(st.observers, topic))
  }

  function AfterFires(st: HandlerState, topics: seq<Topic>): HandlerState
    decreases |topics|
  {
    if |topics| == 0 then st else AfterFires(AfterFire(st, topics[0]), topics[1..])
  }

  /** `setupTable`: registers the load callback on `file:<url>`, then keeps a
      table synced from the same url, or drops one synced from another url,
      and in both other cases forces the load. */
  function AfterSetupTable(env: Env, st: HandlerState, table: Grammar.TableStatement, ctx: Context): HandlerState {
    var name := PrefixedName(env, ctx, table.tableName);
    var url := table.fileName;
    var key := (ctx.sourcePath, name);
    var registered := st.(observers := Register(st.observers, FileTopic(url), Subscription(LoadTable(ctx.sourcePath, name, url), ctx.docId)));
    if key in st.syncs && st.syncs[key] == url then
      registered.(pending := registered.pending + [FireLater(TableTopic(name))])
    else
      var cleared :=
        if key in st.syncs then registered.(events := registered.events + [TableDropped(DropStatement(name))], syncs := registered.syncs - {key})
        else registered;
      AfterFire(cleared, FileTopic(url))
  }

  function AfterSetupTables(env: Env, st: HandlerState, tables: seq<Grammar.TableStatement>, ctx: Context): HandlerState
    decreases |tables|
  {
    if |tables| == 0 then st else AfterSetupTables(env, AfterSetupTable(env, st, tables[0], ctx), tables[1..], ctx)
  }

  /** The end of a load: on success the sync record is replaced and the table's
      topic fired; a failed load leaves everything as it is. */
  function AfterTask(st: HandlerState, task: Task, loadOk: bool): HandlerState {
    match task
    case FinishLoad(sp, name, url) =>
      if loadOk then AfterFire(st.(syncs := (st.syncs - {(sp, name)})[(sp, name) := url]), TableTopic(name)) else st
    case FireLater(topic) => AfterFire(st, topic)
  }

  /** How `setupSelect` reports an error. */
  function Report(el: ElementId, ctx: Context, e: Exception): Event {
    if e.isRangeError && |ctx.frontmatter| == 0 then InfoShown(el, LivePreviewMessage) else ErrorShown(el, e)
  }

  function AfterRegisterAll(st: HandlerState, tables: seq<string>, sub: Subscription<Callback>): HandlerState
    decreases |tables|
  {
    if |tables| == 0 then st
    else AfterRegisterAll(st.(observers := Register(st.observers, TableTopic(tables[0]), sub)), tables[1..], sub)
  }

  /** Fires the topics of the tables already synced for the note. */
  function AfterFireSynced(st: HandlerState, tables: seq<string>, sourcePath: string): HandlerState
    decreases |tables|
  {
    if |tables| == 0 then st
    else
      var next := if (sourcePath, tables[0]) in st.syncs then AfterFire(st, TableTopic(tables[0])) else st;
      AfterFireSynced(next, tables[1..], sourcePath)
  }

  /** `setupSelect` once the statement is rewritten and the frontmatter resolved. */
  function AfterSubscribeQuery(st: HandlerState, rw: Rewritten, params: Params, el: ElementId, ctx: Context): HandlerState {
    var registered := AfterRegisterAll(st, rw.tables, Subscription(RenderQuery(el, rw.statement, params, ctx.docId), ctx.docId));
    var fired := AfterFires(registered, TableTopics(GlobalTables));
    var shown :=
      if HasAnyObserver(fired.observers, TableTopics(GlobalTables)) then fired
      else fired.(events := fired.events + [Rendered(el, rw.statement, params)]);
    AfterFireSynced(shown, rw.tables, ctx.sourcePath)
  }

  /** `setupSelect`: an error thrown while preparing is reported instead. */
  function AfterSetupSelect(env: Env, st: HandlerState, selectStmt: string, el: ElementId, ctx: Context): HandlerState {
    match env.updateTables(selectStmt, GlobalTables, env.hashString(ctx.sourcePath))
    case Failure(e) => st.(events := st.events + [Report(el, ctx, e)])
    case Success(rw) =>
      match env.resolveFrontmatter(ctx)
      case Failure(e) => st.(events := st.events + [Report(el, ctx, e)])
      case Success(fm) => AfterSubscribeQuery(st, rw, fm.GetOr(map[]), el, ctx)
  }

  /** The declared tables with their names prefixed for the note. */
  function PrefixTables(env: Env, tables: seq<Grammar.TableStatement>, prefix: string): (r: seq<Grammar.TableStatement>)
    ensures |r| == |tables|
    ensures forall i :: 0 <= i < |tables| ==>
      r[i] == tables[i].(tableName := env.prefixedIfNotGlobal(tables[i].tableName, GlobalTables, prefix))
  {
    if |tables| == 0 then []
    else [tables[0].(tableName := env.prefixedIfNotGlobal(tables[0].tableName, GlobalTables, prefix))] + PrefixTables(env, tables[1..], prefix)
  }

  /** `setupTableSignals`: one registration per table, in order. */
  function TableSignals(tables: seq<Grammar.TableStatement>): (r: seq<Event>)
    ensures |r| == |tables|
  {
    if |tables| == 0 then [] else TableSignals(tables[..|tables| - 1]) + [TableRegistered(tables[|tables| - 1].tableName, tables[|tables| - 1].fileName)]
  }

  /** The query part of a parsed block, subscribed through the query manager. */
  function QuerySignal(env: Env, queryPart: string, prefix: string, el: ElementId, ctx: Context): Event {
    match env.updateTables(queryPart, GlobalTables, prefix)
    case Failure(e) => ErrorShown(el, e)
    case Success(rw) =>
      match env.resolveFrontmatter(ctx)
      case Failure(e) => ErrorShown(el, e)
      case Success(fm) => QueryRegistered(ctx.docId, rw.tables, el, rw.statement, fm.GetOr(map[]))
  }

  /** The handler `getHandler` returns, run on one code block. */
  function AfterBlock(env: Env, st: HandlerState, source: string, el: ElementId, ctx: Context): HandlerState {
    AfterParse(env, st.(events := st.events + [LoaderShown(el)]), Grammar.ParseLanguage(source), el, ctx)
  }

  /** What the handler does with the result of parsing the block. */
  function AfterParse(env: Env, st: HandlerState, parsed: Result<Grammar.ParsedLanguage, Grammar.ParseError>, el: ElementId, ctx: Context): HandlerState {
    match parsed
    case Failure(e) => st.(events := st.events + [ErrorShown(el, Exception(false, env.parseErrorText(e)))])
    case Success(results) =>
      var prefix := env.hashString(ctx.sourcePath);
      var signals := st.events + TableSignals(PrefixTables(env, results.tables, prefix));
      if results.queryPart == "" then st.(events := signals)
      else st.(events := signals + [QuerySignal(env, results.queryPart, prefix, el, ctx)])
  }

  // ---------------------------------------------------------------------------
  // Unfolding steps used by the loops below.

  lemma CallbacksStep(st: HandlerState, subs: seq<Subscription<Callback>>, i: nat)
    requires i < |subs|
    ensures AfterCallbacks(st, subs[i..]) == AfterCallbacks(AfterCallback(st, subs[i]), subs[i + 1..])
  {
    assert subs[i..][1..] == subs[i + 1..];
  }

  lemma FiresStep(st: HandlerState, topics: seq<Topic>, i: nat)
    requires i < |topics|
    ensures AfterFires(st, topics[i..]) == AfterFires(AfterFire(st, topics[i]), topics[i + 1..])
  {
    assert topics[i..][1..] == topics[i + 1..];
  }

  lemma SetupTablesStep(env: Env, st: HandlerState, tables: seq<Grammar.TableStatement>, ctx: Context, i: nat)
    requires i < |tables|
    ensures AfterSetupTables(env, st, tables[i..], ctx) == AfterSetupTables(env, AfterSetupTable(env, st, tables[i], ctx), tables[i + 1..], ctx)
  {
    assert tables[i..][1..] == tables[i + 1..];
  }

  lemma RegisterAllStep(st: HandlerState, tables: seq<string>, sub: Subscription<Callback>, i: nat)
    requires i < |tables|
    ensures AfterRegisterAll(st, tables[i..], sub) ==
      AfterRegisterAll(st.(observers := Register(st.observers, TableTopic(tables[i]), sub)), tables[i + 1..], sub)
  {
    assert tables[i..][1..] == tables[i + 1..];
  }

  lemma FireSyncedStep(st: HandlerState, tables: seq<string>, sourcePath: string, i: nat)
    requires i < |tables|
    ensures AfterFireSynced(st, tables[i..], sourcePath) ==
      AfterFireSynced(if (sourcePath, tables[i]) in st.syncs then AfterFire(st, TableTopic(tables[i])) else st, tables[i + 1..], sourcePath)
  {
    assert tables[i..][1..] == tables[i + 1..];
  }

  // ---------------------------------------------------------------------------
  // The registry invariant: `file:<url>` topics hold only load callbacks, so
  // firing one only requests loads.

  predicate LoadsOnly(subs: seq<Subscription<Callback>>) {
    forall i :: 0 <= i < |subs| ==> subs[i].callback.LoadTable?
  }

  ghost predicate WellFormed(reg: Registry<Callback>) {
    forall u :: LoadsOnly(Subscribers(reg, FileTopic(u)))
  }

  lemma WithoutTagWellFormed(reg: Registry<Callback>, tag: string)
    requires WellFormed(reg)
    ensures WellFormed(WithoutTag(reg, tag))
  {
    forall u ensures LoadsOnly(Subscribers(WithoutTag(reg, tag), FileTopic(u))) {
      var subs := Subscribers(reg, FileTopic(u));
      var kept := Untagged(subs, tag);
      forall i | 0 <= i < |kept| ensures kept[i].callback.LoadTable? {
        assert kept[i] in kept;
        var j :| 0 <= j < |subs| && subs[j] == kept[i];
      }
    }
  }

  lemma CallbackWellFormed(st: HandlerState, sub: Subscription<Callback>)
    requires WellFormed(st.observers)
    ensures WellFormed(AfterCallback(st, sub).observers)
  {
    if sub.callback.RenderQuery? && sub.callback.el !in st.connected {
      WithoutTagWellFormed(st.observers, sub.callback.docId);
    }
  }

  lemma {:induction false} CallbacksWellFormed(st: HandlerState, subs: seq<Subscription<Callback>>)
    requires WellFormed(st.observers)
    ensures WellFormed(AfterCallbacks(st, subs).observers)
    decreases |subs|
  {
    if |subs| > 0 {
      CallbackWellFormed(st, subs[0]);
      CallbacksWellFormed(AfterCallback(st, subs[0]), subs[1..]);
    }
  }

  lemma {:induction false} FiresWellFormed(st: HandlerState, topics: seq<Topic>)
    requires WellFormed(st.observers)
    ensures WellFormed(AfterFires(st, topics).observers)
    decreases |topics|
  {
    if |topics| > 0 {
      CallbacksWellFormed(st, Subscribers(st.observers, topics[0]));
      FiresWellFormed(AfterFire(st, topics[0]), topics[1..]);
    }
  }

  lemma {:induction false} FireSyncedWellFormed(st: HandlerState, tables: seq<string>, sourcePath: string)
    requires WellFormed(st.observers)
    ensures WellFormed(AfterFireSynced(st, tables, sourcePath).observers)
    decreases |tables|
  {
    if |tables| > 0 {
      CallbacksWellFormed(st, Subscribers(st.observers, TableTopic(tables[0])));
      var next := if (sourcePath, tables[0]) in st.syncs then AfterFire(st, TableTopic(tables[0])) else st;
      FireSyncedWellFormed(next, tables[1..], sourcePath);
    }
  }

  /** Registering on `table:` topics leaves every `file:` topic as it was. */
  lemma {:induction false} RegisterAllKeepsFiles(st: HandlerState, tables: seq<string>, sub: Subscription<Callback>)
    ensures forall u :: Subscribers(AfterRegisterAll(st, tables, sub).observers, FileTopic(u)) == Subscribers(st.observers, FileTopic(u))
    decreases |tables|
  {
    if |tables| > 0 {
      RegisterAllKeepsFiles(st.(observers := Register(st.observers, TableTopic(tables[0]), sub)), tables[1..], sub);
    }
  }

  lemma SetupTableWellFormed(env: Env, st: HandlerState, table: Grammar.TableStatement, ctx: Context)
    requires WellFormed(st.observers)
    ensures WellFormed(AfterSetupTable(env, st, table, ctx).observers)
  {
    var name := PrefixedName(env, ctx, table.tableName);
    var url := table.fileName;
    var sub := Subscription(LoadTable(ctx.sourcePath, name, url), ctx.docId);
    var reg := Register(st.observers, FileTopic(url), sub);
    forall u ensures LoadsOnly(Subscribers(reg, FileTopic(u))) {
      if u == url {
        var old_ := Subscribers(st.observers, FileTopic(u));
        assert LoadsOnly(old_);
        assert Subscribers(reg, FileTopic(u)) == old_ + [sub];
      }
    }
    var key := (ctx.sourcePath, name);
    var registered := st.(observers := reg);
    if !(key in st.syncs && st.syncs[key] == url) {
      var cleared :=
        if key in st.syncs then registered.(events := registered.events + [TableDropped(DropStatement(name))], syncs := registered.syncs - {key})
        else registered;
      CallbacksWellFormed(cleared, Subscribers(cleared.observers, FileTopic(url)));
    }
  }

  lemma {:induction false} SetupTablesWellFormed(env: Env, st: HandlerState, tables: seq<Grammar.TableStatement>, ctx: Context)
    requires WellFormed(st.observers)
    ensures WellFormed(AfterSetupTables(env, st, tables, ctx).observers)
    decreases |tables|
  {
    if |tables| > 0 {
      SetupTableWellFormed(env, st, tables[0], ctx);
      SetupTablesWellFormed(env, AfterSetupTable(env, st, tables[0], ctx), tables[1..], ctx);
    }
  }

  lemma TaskWellFormed(st: HandlerState, task: Task, loadOk: bool)
    requires WellFormed(st.observers)
    ensures WellFormed(AfterTask(st, task, loadOk).observers)
  {
    match task
    case FinishLoad(sp, name, url) =>
      var synced := st.(syncs := (st.syncs - {(sp, name)})[(sp, name) := url]);
      CallbacksWellFormed(synced, Subscribers(synced.observers, TableTopic(name)));
    case FireLater(topic) =>
      CallbacksWellFormed(st, Subscribers(st.observers, topic));
  }

  lemma SetupSelectWellFormed(env: Env, st: HandlerState, selectStmt: string, el: ElementId, ctx: Context)
    requires WellFormed(st.observers)
    ensures WellFormed(AfterSetupSelect(env, st, selectStmt, el, ctx).observers)
  {
    match env.updateTables(selectStmt, GlobalTables, env.hashString(ctx.sourcePath))
    case Failure(_) =>
    case Success(rw) =>
      match env.resolveFrontmatter(ctx)
      case Failure(_) =>
      case Success(fm) =>
        var params := fm.GetOr(map[]);
        var sub := Subscription(RenderQuery(el, rw.statement, params, ctx.docId), ctx.docId);
        var registered := AfterRegisterAll(st, rw.tables, sub);
        RegisterAllKeepsFiles(st, rw.tables, sub);
        assert WellFormed(registered.observers);
        var fired := AfterFires(registered, TableTopics(GlobalTables));
        FiresWellFormed(registered, TableTopics(GlobalTables));
        var shown :=
          if HasAnyObserver(fired.observers, TableTopics(GlobalTables)) then fired
          else fired.(events := fired.events + [Rendered(el, rw.statement, params)]);
        FireSyncedWellFormed(shown, rw.tables, ctx.sourcePath);
  }

  /** The handler object: the registry and the sync store are its fields. */
  class SqlSealCodeblockHandler {
    const env: Env
    var observers: Registry<Callback>
    var syncs: map<SyncKey, string>
    var connected: set<ElementId>
    var events: seq<Event>
    var pending: seq<Task>

    function State(): HandlerState
      reads this
    {
      HandlerState(observers, syncs, connected, events, pending)
    }

    /** Every `file:` topic holds only load callbacks. */
    ghost predicate Valid()
      reads this
    {
      WellFormed(observers)
    }

    /** The observer registry is shared with the other blocks and the sync
        store lives in the database, so both may already hold entries. */
    constructor(env: Env, observers: Registry<Callback>, syncs: map<SyncKey, string>)
      requires WellFormed(observers)
      ensures this.env == env
      ensures State() == HandlerState(observers, syncs, {}, [], [])
      ensures Valid()
    {
      this.env := env;
      this.observers := observers;
      this.syncs := syncs;
      connected := {};
      events := [];
      pending := [];
    }

    /** The host attaches or detaches an element. */
    method SetConnected(el: ElementId, isConnected: bool)
      requires Valid()
      modifies this
      ensures Valid()
      ensures State() == old(State()).(connected := if isConnected then old(connected) + {el} else old(connected) - {el})
    {
      connected := if isConnected then connected + {el} else connected - {el};
    }

    method RegisterObserver(topic: Topic, callback: Callback, tag: string)
      modifies this
      ensures State() == old(State()).(observers := Register(old(observers), topic, Subscription(callback, tag)))
    {
      observers := Register(observers, topic, Subscription(callback, tag));
    }

    method UnregisterObserversByTag(tag: string)
      modifies this
      ensures State() == old(State()).(observers := WithoutTag(old(observers), tag))
    {
      observers := WithoutTag(observers, tag);
    }

    /** `getSync(sourcePath, name)`: the url the table was loaded from, if any. */
    method GetSync(sourcePath: string, name: string) returns (url: Option<string>)
      ensures url.Some? <==> (sourcePath, name) in syncs
      ensures url.Some? ==> url.value == syncs[(sourcePath, name)]
    {
      url := if (sourcePath, name) in syncs then Some(syncs[(sourcePath, name)]) else None;
    }

    method RemoveSync(sourcePath: string, name: string)
      modifies this
      ensures State() == old(State()).(syncs := old(syncs) - {(sourcePath, name)})
    {
      syncs := syncs - {(sourcePath, name)};
    }

    method RegisterSync(sourcePath: string, url: string, name: string)
      modifies this
      ensures State() == old(State()).(syncs := old(syncs)[(sourcePath, name) := url])
    {
      syncs := syncs[(sourcePath, name) := url];
    }

    method RunCallback(sub: Subscription<Callback>)
      modifies this
      ensures State() == AfterCallback(old(State()), sub)
    {
      match sub.callback
      case LoadTable(sp, name, url) =>
        events := events + [LoadRequested(name, url)];
        pending := pending + [FinishLoad(sp, name, url)];
      case RenderQuery(el, statement, params, docId) =>
        if el !in connected {
          UnregisterObserversByTag(docId);
        }
        events := events + [LoaderShown(el), Rendered(el, statement, params)];
    }

    method FireObservers(topic: Topic)
      modifies this
      ensures State() == AfterFire(old(State()), topic)
    {
      var subs := Subscribers(observers, topic);
      var i := 0;
      while i < |subs|
        invariant i <= |subs|
        invariant AfterCallbacks(State(), subs[i..]) == AfterFire(old(State()), topic)
      {
        CallbacksStep(State(), subs, i);
        RunCallback(subs[i]);
        i := i + 1;
      }
    }

    method SetupTable(table: Grammar.TableStatement, ctx: Context)
      requires Valid()
      modifies this
      ensures Valid()
      ensures State() == AfterSetupTable(env, old(State()), table, ctx)
    {
      SetupTableWellFormed(env, State(), table, ctx);
      var prefix := env.hashString(ctx.sourcePath);
      var name := env.prefixedIfNotGlobal(table.tableName, GlobalTables, prefix);
      var url := table.fileName;
      var existing := GetSync(ctx.sourcePath, name);
      RegisterObserver(FileTopic(url), LoadTable(ctx.sourcePath, name, url), ctx.docId);
      if existing.Some? {
        if existing.value == url {
          pending := pending + [FireLater(TableTopic(name))];
          return;
        } else {
          events := events + [TableDropped(DropStatement(name))];
          RemoveSync(ctx.sourcePath, name);
        }
      }
      FireObservers(FileTopic(url));
    }

    method SetupTables(tables: seq<Grammar.TableStatement>, ctx: Context)
      requires Valid()
      modifies this
      ensures Valid()
      ensures State() == AfterSetupTables(env, old(State()), tables, ctx)
    {
      SetupTablesWellFormed(env, State(), tables, ctx);
      var i := 0;
      while i < |tables|
        invariant i <= |tables|
        invariant AfterSetupTables(env, State(), tables[i..], ctx) == AfterSetupTables(env, old(State()), tables, ctx)
        invariant Valid()
      {
        SetupTablesStep(env, State(), tables, ctx, i);
        SetupTable(tables[i], ctx);
        i := i + 1;
      }
    }

    /** The host runs the `i`-th pending task; `loadOk` says whether a load it ends succeeded. */
    method RunTask(i: nat, loadOk: bool)
      requires Valid() && i < |pending|
      modifies this
      ensures Valid()
      ensures State() == AfterTask(old(State()).(pending := old(pending[..i] + pending[i + 1..])), old(pending[i]), loadOk)
    {
      TaskWellFormed(State().(pending := pending[..i] + pending[i + 1..]), pending[i], loadOk);
      var task := pending[i];
      pending := pending[..i] + pending[i + 1..];
      match task
      case FinishLoad(sp, name, url) =>
        if loadOk {
          RemoveSync(sp, name);
          RegisterSync(sp, url, name);
          FireObservers(TableTopic(name));
        }
      case FireLater(topic) =>
        FireObservers(topic);
    }

    method SetupSelect(selectStmt: string, el: ElementId, ctx: Context)
      requires Valid()
      modifies this
      ensures Valid()
      ensures State() == AfterSetupSelect(env, old(State()), selectStmt, el, ctx)
    {
      SetupSelectWellFormed(env, State(), selectStmt, el, ctx);
      var prefix := env.hashString(ctx.sourcePath);
      var rewritten := env.updateTables(selectStmt, GlobalTables, prefix);
      if rewritten.Failure? {
        events := events + [Report(el, ctx, rewritten.error)];
        return;
      }
      var frontmatter := env.resolveFrontmatter(ctx);
      if frontmatter.Failure? {
        events := events + [Report(el, ctx, frontmatter.error)];
        return;
      }
      SubscribeQuery(rewritten.value, frontmatter.value.GetOr(map[]), el, ctx);
    }

    method SubscribeQuery(rw: Rewritten, params: Params, el: ElementId, ctx: Context)
      modifies this
      ensures State() == AfterSubscribeQuery(old(State()), rw, params, el, ctx)
    {
      var sub := Subscription(RenderQuery(el, rw.statement, params, ctx.docId), ctx.docId);
      ghost var registered := AfterRegisterAll(State(), rw.tables, sub);
      var i := 0;
      while i < |rw.tables|
        invariant i <= |rw.tables|
        invariant AfterRegisterAll(State(), rw.tables[i..], sub) == registered
      {
        RegisterAllStep(State(), rw.tables, sub, i);
        RegisterObserver(TableTopic(rw.tables[i]), sub.callback, sub.tag);
        i := i + 1;
      }
      var globals := TableTopics(GlobalTables);
      ghost var fired := AfterFires(registered, globals);
      i := 0;
      while i < |globals|
        invariant i <= |globals|
        invariant AfterFires(State(), globals[i..]) == fired
      {
        FiresStep(State(), globals, i);
        FireObservers(globals[i]);
        i := i + 1;
      }
      if !HasAnyObserver(observers, globals) {
        events := events + [Rendered(el, rw.statement, params)];
      }
      ghost var target := AfterFireSynced(State(), rw.tables, ctx.sourcePath);
      i := 0;
      while i < |rw.tables|
        invariant i <= |rw.tables|
        invariant AfterFireSynced(State(), rw.tables[i..], ctx.sourcePath) == target
      {
        FireSyncedStep(State(), rw.tables, ctx.sourcePath, i);
        var existing := GetSync(ctx.sourcePath, rw.tables[i]);
        if existing.Some? {
          FireObservers(TableTopic(rw.tables[i]));
        }
        i := i + 1;
      }
    }

    /** The block handler: shows the loader, parses the block, registers its
        tables and, when it has a query, the query. */
    method HandleBlock(source: string, el: ElementId, ctx: Context)
      requires Valid()
      modifies this
      ensures Valid()
      ensures State() == AfterBlock(env, old(State()), source, el, ctx)
    {
      events := events + [LoaderShown(el)];
      var results := Grammar.ParseLanguage(source);
      HandleParsed(results, el, ctx);
    }

    method HandleParsed(results: Result<Grammar.ParsedLanguage, Grammar.ParseError>, el: ElementId, ctx: Context)
      modifies this
      ensures State() == AfterParse(env, old(State()), results, el, ctx)
    {
      if results.Failure? {
        events := events + [ErrorShown(el, Exception(false, env.parseErrorText(results.error)))];
        return;
      }
      var prefix := env.hashString(ctx.sourcePath);
      var tables := PrefixTables(env, results.value.tables, prefix);
      ghost var start := events;
      var i := 0;
      while i < |tables|
        invariant i <= |tables|
        invariant events == start + TableSignals(tables[..i])
        invariant State() == old(State()).(events := events)
      {
        assert tables[..i + 1][..i] == tables[..i];
        events := events + [TableRegistered(tables[i].tableName, tables[i].fileName)];
        i := i + 1;
      }
      assert tables[..|tables|] == tables;
      if results.value.queryPart != "" {
        events := events + [QuerySignal(env, results.value.queryPart, prefix, el, ctx)];
      }
    }
  }
}
