/** What the code-block controller promises, stated over the step functions
    of `CodeblockHandler`: what firing a topic does, the three outcomes of
    setting up a table, how a query subscribes, and what the block handler
    registers. The last section holds the drop statement as the source
    writes it next to the corrected one. */
module HandlerProperties {
  import opened Wrappers
  import opened Strings
  import opened Observers
  import opened CodeblockHandler
  import Grammar

  // ---------------------------------------------------------------------------
  // Firing.

  /** The events a run of load callbacks records. */
  function LoadEvents(subs: seq<Subscription<Callback>>): (r: seq<Event>)
    requires LoadsOnly(subs)
    ensures |r| == |subs|
  {
    if |subs| == 0 then []
    else [LoadRequested(subs[0].callback.prefixedName, subs[0].callback.url)] + LoadEvents(subs[1..])
  }

  /** The load continuations a run of load callbacks leaves pending. */
  function LoadTasks(subs: seq<Subscription<Callback>>): (r: seq<Task>)
    requires LoadsOnly(subs)
    ensures |r| == |subs|
  {
    if |subs| == 0 then []
    else [FinishLoad(subs[0].callback.sourcePath, subs[0].callback.prefixedName, subs[0].callback.url)] + LoadTasks(subs[1..])
  }

  /** Running load callbacks only requests loads: one event and one pending
      continuation per callback, in order, and nothing else changes. */
  lemma {:induction false} FireLoads(st: HandlerState, subs: seq<Subscription<Callback>>)
    requires LoadsOnly(subs)
    ensures AfterCallbacks(st, subs) == st.(events := st.events + LoadEvents(subs), pending := st.pending + LoadTasks(subs))
    decreases |subs|
  {
    if |subs| == 0 {
      assert st.events + [] == st.events;
      assert st.pending + [] == st.pending;
    } else {
      var c := subs[0].callback;
      var e := [LoadRequested(c.prefixedName, c.url)];
      var t := [FinishLoad(c.sourcePath, c.prefixedName, c.url)];
      var next := st.(events := st.events + e, pending := st.pending + t);
      assert AfterCallback(st, subs[0]) == next;
      assert LoadsOnly(subs[1..]);
      FireLoads(next, subs[1..]);
      assert LoadEvents(subs) == e + LoadEvents(subs[1..]);
      assert LoadTasks(subs) == t + LoadTasks(subs[1..]);
      assert st.events + e + LoadEvents(subs[1..]) == st.events + LoadEvents(subs);
      assert st.pending + t + LoadTasks(subs[1..]) == st.pending + LoadTasks(subs);
    }
  }

  /** No callback touches the sync store or the attached elements, and events
      and pending work are only ever appended to. */
  lemma {:induction false} CallbacksKeep(st: HandlerState, subs: seq<Subscription<Callback>>)
    ensures AfterCallbacks(st, subs).syncs == st.syncs
    ensures AfterCallbacks(st, subs).connected == st.connected
    ensures st.events <= AfterCallbacks(st, subs).events
    ensures st.pending <= AfterCallbacks(st, subs).pending
    decreases |subs|
  {
    if |subs| > 0 {
      var next := AfterCallback(st, subs[0]);
      assert st.events <= next.events && st.pending <= next.pending;
      CallbacksKeep(next, subs[1..]);
    }
  }

  lemma {:induction false} FiresKeep(st: HandlerState, topics: seq<Topic>)
    ensures AfterFires(st, topics).syncs == st.syncs
    ensures st.events <= AfterFires(st, topics).events
    decreases |topics|
  {
    if |topics| > 0 {
      CallbacksKeep(st, Subscribers(st.observers, topics[0]));
      FiresKeep(AfterFire(st, topics[0]), topics[1..]);
    }
  }

  /** A render whose element is no longer attached removes every subscription
      of its document, and still shows the loader and the data. */
  lemma DetachedRenderUnsubscribes(st: HandlerState, sub: Subscription<Callback>)
    requires sub.callback.RenderQuery? && sub.callback.el !in st.connected
    ensures forall t, s :: s in Subscribers(AfterCallback(st, sub).observers, t) ==> s.tag != sub.callback.docId
    ensures AfterCallback(st, sub).events[|st.events|..] ==
      [LoaderShown(sub.callback.el), Rendered(sub.callback.el, sub.callback.statement, sub.callback.params)]
  {
    var r := AfterCallback(st, sub);
    forall t, s | s in Subscribers(r.observers, t) ensures s.tag != sub.callback.docId {
      assert Subscribers(r.observers, t) == Untagged(Subscribers(st.observers, t), sub.callback.docId);
    }
  }

  // ---------------------------------------------------------------------------
  // Setting up one table.

  function SyncKeyOf(env: Env, table: Grammar.TableStatement, ctx: Context): SyncKey {
    (ctx.sourcePath, PrefixedName(env, ctx, table.tableName))
  }

  /** The load subscription `setupTable` registers on `file:<url>`. */
  function LoadSubscription(env: Env, table: Grammar.TableStatement, ctx: Context): Subscription<Callback> {
    Subscription(LoadTable(ctx.sourcePath, PrefixedName(env, ctx, table.tableName), table.fileName), ctx.docId)
  }

  /** The file's load subscriptions once the new one is registered. */
  function FileLoads(env: Env, st: HandlerState, table: Grammar.TableStatement, ctx: Context): seq<Subscription<Callback>> {
    Subscribers(st.observers, FileTopic(table.fileName)) + [LoadSubscription(env, table, ctx)]
  }

  predicate SyncedFrom(st: HandlerState, key: SyncKey, url: string) {
    key in st.syncs && st.syncs[key] == url
  }

  lemma FileLoadsOnly(env: Env, st: HandlerState, table: Grammar.TableStatement, ctx: Context)
    requires WellFormed(st.observers)
    ensures LoadsOnly(FileLoads(env, st, table, ctx))
  {
    assert LoadsOnly(Subscribers(st.observers, FileTopic(table.fileName)));
  }

  /** `setupTable` always registers exactly one load on the file's topic; then
      - a table already synced from the same url is not reloaded: only a
        deferred fire of its table topic is left pending;
      - a table synced from another url is dropped and its record removed, and
        every load on the file runs;
      - a table never synced is loaded, every load on the file running. */
  lemma SetupTableOutcome(env: Env, st: HandlerState, table: Grammar.TableStatement, ctx: Context)
    requires WellFormed(st.observers)
    ensures AfterSetupTable(env, st, table, ctx).observers ==
      Register(st.observers, FileTopic(table.fileName), LoadSubscription(env, table, ctx))
    ensures AfterSetupTable(env, st, table, ctx).connected == st.connected
    ensures SyncedFrom(st, SyncKeyOf(env, table, ctx), table.fileName) ==>
      AfterSetupTable(env, st, table, ctx).events == st.events &&
      AfterSetupTable(env, st, table, ctx).syncs == st.syncs &&
      AfterSetupTable(env, st, table, ctx).pending == st.pending + [FireLater(TableTopic(PrefixedName(env, ctx, table.tableName)))]
    ensures SyncKeyOf(env, table, ctx) in st.syncs && !SyncedFrom(st, SyncKeyOf(env, table, ctx), table.fileName) ==>
      LoadsOnly(FileLoads(env, st, table, ctx)) &&
      AfterSetupTable(env, st, table, ctx).syncs == st.syncs - {SyncKeyOf(env, table, ctx)} &&
      AfterSetupTable(env, st, table, ctx).events ==
        st.events + [TableDropped(DropStatement(PrefixedName(env, ctx, table.tableName)))] + LoadEvents(FileLoads(env, st, table, ctx)) &&
      AfterSetupTable(env, st, table, ctx).pending == st.pending + LoadTasks(FileLoads(env, st, table, ctx))
    ensures SyncKeyOf(env, table, ctx) !in st.syncs ==>
      LoadsOnly(FileLoads(env, st, table, ctx)) &&
      AfterSetupTable(env, st, table, ctx).syncs == st.syncs &&
      AfterSetupTable(env, st, table, ctx).events == st.events + LoadEvents(FileLoads(env, st, table, ctx)) &&
      AfterSetupTable(env, st, table, ctx).pending == st.pending + LoadTasks(FileLoads(env, st, table, ctx))
  {
    var key := SyncKeyOf(env, table, ctx);
    var url := table.fileName;
    var reg := Register(st.observers, FileTopic(url), LoadSubscription(env, table, ctx));
    var registered := st.(observers := reg);
    if !SyncedFrom(st, key, url) {
      FileLoadsOnly(env, st, table, ctx);
      var cleared :=
        if key in st.syncs then registered.(events := registered.events + [TableDropped(DropStatement(key.1))], syncs := registered.syncs - {key})
        else registered;
      assert Subscribers(cleared.observers, FileTopic(url)) == FileLoads(env, st, table, ctx);
      FireLoads(cleared, FileLoads(env, st, table, ctx));
    }
  }

  /** Unless the table is already synced from the same url, the last thing
      `setupTable` does is request the load of this very table from this url. */
  lemma SetupTableLoadsLast(env: Env, st: HandlerState, table: Grammar.TableStatement, ctx: Context)
    requires WellFormed(st.observers)
    requires !SyncedFrom(st, SyncKeyOf(env, table, ctx), table.fileName)
    ensures var r := AfterSetupTable(env, st, table, ctx);
      |r.events| > 0 && r.events[|r.events| - 1] == LoadRequested(PrefixedName(env, ctx, table.tableName), table.fileName) &&
      |r.pending| > 0 && r.pending[|r.pending| - 1] == FinishLoad(ctx.sourcePath, PrefixedName(env, ctx, table.tableName), table.fileName)
  {
    SetupTableOutcome(env, st, table, ctx);
    var subs := FileLoads(env, st, table, ctx);
    LoadsAt(subs, |subs| - 1);
  }

  lemma {:induction false} LoadsAt(subs: seq<Subscription<Callback>>, i: nat)
    requires LoadsOnly(subs) && i < |subs|
    ensures LoadEvents(subs)[i] == LoadRequested(subs[i].callback.prefixedName, subs[i].callback.url)
    ensures LoadTasks(subs)[i] == FinishLoad(subs[i].callback.sourcePath, subs[i].callback.prefixedName, subs[i].callback.url)
    decreases i
  {
    if i > 0 {
      LoadsAt(subs[1..], i - 1);
    }
  }

  /** A finished load records the url the table now holds and leaves every other
      record alone; a failed load changes nothing. */
  lemma FinishLoadRecords(st: HandlerState, sourcePath: string, name: string, url: string)
    ensures AfterTask(st, FinishLoad(sourcePath, name, url), true).syncs == st.syncs[(sourcePath, name) := url]
    ensures AfterTask(st, FinishLoad(sourcePath, name, url), false) == st
  {
    var synced := st.(syncs := (st.syncs - {(sourcePath, name)})[(sourcePath, name) := url]);
    CallbacksKeep(synced, Subscribers(synced.observers, TableTopic(name)));
    assert synced.syncs == st.syncs[(sourcePath, name) := url];
  }

  /** A run of callbacks shows the data of every render callback among them. */
  lemma {:induction false} CallbacksRender(st: HandlerState, subs: seq<Subscription<Callback>>, i: nat)
    requires i < |subs| && subs[i].callback.RenderQuery?
    ensures st.events <= AfterCallbacks(st, subs).events
    ensures var c := subs[i].callback;
      Rendered(c.el, c.statement, c.params) in AfterCallbacks(st, subs).events[|st.events|..]
    decreases i
  {
    var next := AfterCallback(st, subs[0]);
    CallbacksKeep(next, subs[1..]);
    var r := AfterCallbacks(st, subs);
    assert r == AfterCallbacks(next, subs[1..]);
    if i == 0 {
      var c := subs[0].callback;
      assert next.events[|st.events| + 1] == Rendered(c.el, c.statement, c.params);
      assert r.events[|st.events|..][1] == next.events[|st.events| + 1];
    } else {
      CallbacksRender(next, subs[1..], i - 1);
      assert subs[1..][i - 1] == subs[i];
      CallbacksKeep(st, [subs[0]]);
      assert st.events <= next.events;
      var c := subs[i].callback;
      var k :| |next.events| <= k < |r.events| && r.events[k] == Rendered(c.el, c.statement, c.params);
      assert r.events[|st.events|..][k - |st.events|] == r.events[k];
    }
  }

  /** A finished load then fires the table's topic: every query subscribed to
      the table at that time shows its data again. */
  lemma FinishLoadRenders(st: HandlerState, sourcePath: string, name: string, url: string, i: nat)
    requires i < |Subscribers(st.observers, TableTopic(name))|
    requires Subscribers(st.observers, TableTopic(name))[i].callback.RenderQuery?
    ensures st.events <= AfterTask(st, FinishLoad(sourcePath, name, url), true).events
    ensures var c := Subscribers(st.observers, TableTopic(name))[i].callback;
      Rendered(c.el, c.statement, c.params) in AfterTask(st, FinishLoad(sourcePath, name, url), true).events[|st.events|..]
  {
    var synced := st.(syncs := (st.syncs - {(sourcePath, name)})[(sourcePath, name) := url]);
    var subs := Subscribers(st.observers, TableTopic(name));
    assert Subscribers(synced.observers, TableTopic(name)) == subs;
    assert AfterTask(st, FinishLoad(sourcePath, name, url), true) == AfterCallbacks(synced, subs);
    CallbacksRender(synced, subs, i);
  }

  /** Once a table's load has finished, setting the same table up again does
      not reload it. */
  lemma LoadedTableNotReloaded(env: Env, st: HandlerState, table: Grammar.TableStatement, ctx: Context)
    requires WellFormed(st.observers)
    ensures var loaded := AfterTask(AfterSetupTable(env, st, table, ctx),
                                    FinishLoad(ctx.sourcePath, PrefixedName(env, ctx, table.tableName), table.fileName), true);
      AfterSetupTable(env, loaded, table, ctx).events == loaded.events &&
      AfterSetupTable(env, loaded, table, ctx).syncs == loaded.syncs
  {
    var first := AfterSetupTable(env, st, table, ctx);
    SetupTableWellFormed(env, st, table, ctx);
    var task := FinishLoad(ctx.sourcePath, PrefixedName(env, ctx, table.tableName), table.fileName);
    TaskWellFormed(first, task, true);
    FinishLoadRecords(first, ctx.sourcePath, PrefixedName(env, ctx, table.tableName), table.fileName);
    var loaded := AfterTask(first, task, true);
    assert SyncedFrom(loaded, SyncKeyOf(env, table, ctx), table.fileName);
    SetupTableOutcome(env, loaded, table, ctx);
  }

  // ---------------------------------------------------------------------------
  // Subscribing a query.

  function Count(tables: seq<string>, t: string): nat {
    if |tables| == 0 then 0 else (if tables[0] == t then 1 else 0) + Count(tables[1..], t)
  }

  function Copies<T>(x: T, n: nat): (r: seq<T>)
    ensures |r| == n
    ensures forall i :: 0 <= i < n ==> r[i] == x
  {
    if n == 0 then [] else [x] + Copies(x, n - 1)
  }

  /** Subscribing a query to its tables adds it to each table's topic once per
      mention of the table, after the subscriptions already there, and changes
      nothing else. */
  lemma {:induction false} RegisterAllSubscribes(st: HandlerState, tables: seq<string>, sub: Subscription<Callback>)
    ensures forall t :: (Subscribers(AfterRegisterAll(st, tables, sub).observers, TableTopic(t)) ==
                         Subscribers(st.observers, TableTopic(t)) + Copies(sub, Count(tables, t)))
    ensures AfterRegisterAll(st, tables, sub) == st.(observers := AfterRegisterAll(st, tables, sub).observers)
    decreases |tables|
  {
    if |tables| == 0 {
      forall t ensures Subscribers(st.observers, TableTopic(t)) + Copies(sub, 0) == Subscribers(st.observers, TableTopic(t)) {
        assert Copies(sub, 0) == [];
      }
    } else {
      var next := st.(observers := Register(st.observers, TableTopic(tables[0]), sub));
      RegisterAllSubscribes(next, tables[1..], sub);
      forall t ensures Subscribers(AfterRegisterAll(st, tables, sub).observers, TableTopic(t)) ==
        Subscribers(st.observers, TableTopic(t)) + Copies(sub, Count(tables, t))
      {
        var before := Subscribers(st.observers, TableTopic(t));
        var n := Count(tables[1..], t);
        if tables[0] == t {
          assert Copies(sub, n + 1) == [sub] + Copies(sub, n);
          assert before + [sub] + Copies(sub, n) == before + Copies(sub, n + 1);
        } else {
          assert TableTopic(t) != TableTopic(tables[0]);
        }
      }
    }
  }

  lemma {:induction false} CountAbsent(tables: seq<string>, t: string)
    requires t !in tables
    ensures Count(tables, t) == 0
    decreases |tables|
  {
    if |tables| > 0 {
      CountAbsent(tables[1..], t);
    }
  }

  lemma {:induction false} FireSyncedGrows(st: HandlerState, tables: seq<string>, sourcePath: string)
    ensures st.events <= AfterFireSynced(st, tables, sourcePath).events
    decreases |tables|
  {
    if |tables| > 0 {
      CallbacksKeep(st, Subscribers(st.observers, TableTopic(tables[0])));
      var next := if (sourcePath, tables[0]) in st.syncs then AfterFire(st, TableTopic(tables[0])) else st;
      FireSyncedGrows(next, tables[1..], sourcePath);
    }
  }

  /** When no query watches the global tables, and this query does not read
      them, firing them renders nothing, so the query renders itself once right
      after subscribing. */
  lemma FirstRenderWithoutGlobalObservers(st: HandlerState, rw: Rewritten, params: Params, el: ElementId, ctx: Context)
    requires forall g :: g in GlobalTables ==> g !in rw.tables && Subscribers(st.observers, TableTopic(g)) == []
    ensures st.events + [Rendered(el, rw.statement, params)] <= AfterSubscribeQuery(st, rw, params, el, ctx).events
  {
    var sub := Subscription(RenderQuery(el, rw.statement, params, ctx.docId), ctx.docId);
    var registered := AfterRegisterAll(st, rw.tables, sub);
    RegisterAllSubscribes(st, rw.tables, sub);
    var globals := TableTopics(GlobalTables);
    forall i | 0 <= i < |globals| ensures Subscribers(registered.observers, globals[i]) == [] {
      assert GlobalTables[i] in GlobalTables;
      CountAbsent(rw.tables, GlobalTables[i]);
      assert Copies(sub, 0) == [];
    }
    assert |globals| == 2;
    assert AfterFire(registered, globals[0]) == registered;
    assert AfterFire(registered, globals[1]) == registered;
    FiresStep(registered, globals, 0);
    FiresStep(registered, globals, 1);
    assert globals[0..] == globals;
    assert AfterFires(registered, globals[2..]) == registered;
    assert !HasAnyObserver(registered.observers, globals);
    var shown := registered.(events := registered.events + [Rendered(el, rw.statement, params)]);
    FireSyncedGrows(shown, rw.tables, ctx.sourcePath);
  }

  /** The tables of the list that have a sync record for the note, in order. */
  function SyncedTables(syncs: map<SyncKey, string>, tables: seq<string>, sourcePath: string): (r: seq<string>)
    ensures forall t :: t in r <==> t in tables && (sourcePath, t) in syncs
  {
    if |tables| == 0 then []
    else if (sourcePath, tables[0]) in syncs then [tables[0]] + SyncedTables(syncs, tables[1..], sourcePath)
    else SyncedTables(syncs, tables[1..], sourcePath)
  }

  /** The re-fire after subscribing fires exactly the topics of the tables
      already synced for the note, in the order the query names them; a
      table without a record is skipped. */
  lemma {:induction false} FireSyncedSpec(st: HandlerState, tables: seq<string>, sourcePath: string)
    ensures AfterFireSynced(st, tables, sourcePath) == AfterFires(st, TableTopics(SyncedTables(st.syncs, tables, sourcePath)))
    decreases |tables|
  {
    if |tables| > 0 {
      var rest := SyncedTables(st.syncs, tables[1..], sourcePath);
      if (sourcePath, tables[0]) in st.syncs {
        var next := AfterFire(st, TableTopic(tables[0]));
        CallbacksKeep(st, Subscribers(st.observers, TableTopic(tables[0])));
        FireSyncedSpec(next, tables[1..], sourcePath);
        var topics := TableTopics([tables[0]] + rest);
        assert topics[0] == TableTopic(tables[0]);
        assert topics[1..] == TableTopics(rest);
      } else {
        FireSyncedSpec(st, tables[1..], sourcePath);
      }
    }
  }

  /** The state once the query is subscribed and the global tables fired. */
  function GlobalsFired(st: HandlerState, rw: Rewritten, params: Params, el: ElementId, ctx: Context): HandlerState {
    var sub := Subscription(RenderQuery(el, rw.statement, params, ctx.docId), ctx.docId);
    AfterFires(AfterRegisterAll(st, rw.tables, sub), TableTopics(GlobalTables))
  }

  /** `setupSelect` after preparing: once the query is subscribed and the
      global tables fired, the query renders itself directly exactly when no
      global table topic has an observer; then the topics of its tables that
      were synced for the note before the call are fired, in order. With an
      observer on a global table and no synced table, nothing is rendered
      beyond what the global fires did. */
  lemma SubscribeQueryOutcome(st: HandlerState, rw: Rewritten, params: Params, el: ElementId, ctx: Context)
    ensures var fired := GlobalsFired(st, rw, params, el, ctx);
      var synced := TableTopics(SyncedTables(st.syncs, rw.tables, ctx.sourcePath));
      fired.syncs == st.syncs &&
      (HasAnyObserver(fired.observers, TableTopics(GlobalTables)) ==>
        AfterSubscribeQuery(st, rw, params, el, ctx) == AfterFires(fired, synced)) &&
      (!HasAnyObserver(fired.observers, TableTopics(GlobalTables)) ==>
        AfterSubscribeQuery(st, rw, params, el, ctx) ==
          AfterFires(fired.(events := fired.events + [Rendered(el, rw.statement, params)]), synced))
  {
    var sub := Subscription(RenderQuery(el, rw.statement, params, ctx.docId), ctx.docId);
    var registered := AfterRegisterAll(st, rw.tables, sub);
    RegisterAllSubscribes(st, rw.tables, sub);
    assert registered.syncs == st.syncs;
    FiresKeep(registered, TableTopics(GlobalTables));
    var fired := GlobalsFired(st, rw, params, el, ctx);
    assert fired.syncs == st.syncs;
    var shown :=
      if HasAnyObserver(fired.observers, TableTopics(GlobalTables)) then fired
      else fired.(events := fired.events + [Rendered(el, rw.statement, params)]);
    FireSyncedSpec(shown, rw.tables, ctx.sourcePath);
  }

  /** A query that reads no table does not render while another block's
      query still watches a global table after the global fires. */
  lemma NoTablesWaitsForGlobals(st: HandlerState, rw: Rewritten, params: Params, el: ElementId, ctx: Context)
    requires rw.tables == []
    requires HasAnyObserver(GlobalsFired(st, rw, params, el, ctx).observers, TableTopics(GlobalTables))
    ensures AfterSubscribeQuery(st, rw, params, el, ctx) == GlobalsFired(st, rw, params, el, ctx)
  {
    SubscribeQueryOutcome(st, rw, params, el, ctx);
    assert SyncedTables(st.syncs, rw.tables, ctx.sourcePath) == [];
  }

  /** A failure to rewrite the statement is reported and nothing else happens;
      it reads as the Live Preview notice exactly when it is a range error and
      the note has no frontmatter. */
  lemma SetupSelectReportsRewriteError(env: Env, st: HandlerState, selectStmt: string, el: ElementId, ctx: Context)
    requires env.updateTables(selectStmt, GlobalTables, env.hashString(ctx.sourcePath)).Failure?
    ensures var r := AfterSetupSelect(env, st, selectStmt, el, ctx);
      var e := env.updateTables(selectStmt, GlobalTables, env.hashString(ctx.sourcePath)).error;
      r.observers == st.observers && r.syncs == st.syncs && r.pending == st.pending &&
      |r.events| == |st.events| + 1 && r.events[..|st.events|] == st.events &&
      (r.events[|st.events|] == InfoShown(el, LivePreviewMessage) <==> e.isRangeError && |ctx.frontmatter| == 0) &&
      (r.events[|st.events|] == ErrorShown(el, e) <==> !(e.isRangeError && |ctx.frontmatter| == 0))
  {
  }

  /** A failure to resolve the frontmatter, after a successful rewrite, is
      reported the same way: the Live Preview notice for a range error in a
      note without frontmatter, the error itself otherwise. */
  lemma SetupSelectReportsFrontmatterError(env: Env, st: HandlerState, selectStmt: string, el: ElementId, ctx: Context)
    requires env.updateTables(selectStmt, GlobalTables, env.hashString(ctx.sourcePath)).Success?
    requires env.resolveFrontmatter(ctx).Failure?
    ensures var r := AfterSetupSelect(env, st, selectStmt, el, ctx);
      var e := env.resolveFrontmatter(ctx).error;
      r.observers == st.observers && r.syncs == st.syncs && r.pending == st.pending &&
      |r.events| == |st.events| + 1 && r.events[..|st.events|] == st.events &&
      (r.events[|st.events|] == InfoShown(el, LivePreviewMessage) <==> e.isRangeError && |ctx.frontmatter| == 0) &&
      (r.events[|st.events|] == ErrorShown(el, e) <==> !(e.isRangeError && |ctx.frontmatter| == 0))
  {
  }

  // ---------------------------------------------------------------------------
  // The block handler.

  lemma {:induction false} TableSignalsAt(tables: seq<Grammar.TableStatement>, i: nat)
    requires i < |tables|
    ensures TableSignals(tables)[i] == TableRegistered(tables[i].tableName, tables[i].fileName)
    decreases |tables|
  {
    if i < |tables| - 1 {
      TableSignalsAt(tables[..|tables| - 1], i);
    }
  }

  /** The table registrations that follow a successful parse, at `st.events`'s end. */
  lemma ParsedRegistersTables(env: Env, st: HandlerState, p: Grammar.ParsedLanguage, el: ElementId, ctx: Context)
    ensures var r := AfterParse(env, st, Success(p), el, ctx);
      r.observers == st.observers && r.syncs == st.syncs && r.pending == st.pending &&
      |r.events| >= |st.events| + |p.tables| && r.events[..|st.events|] == st.events &&
      forall i :: 0 <= i < |p.tables| ==>
        (r.events[|st.events| + i] ==
         TableRegistered(env.prefixedIfNotGlobal(p.tables[i].tableName, GlobalTables, env.hashString(ctx.sourcePath)), p.tables[i].fileName))
  {
    var prefixed := PrefixTables(env, p.tables, env.hashString(ctx.sourcePath));
    var r := AfterParse(env, st, Success(p), el, ctx);
    var n := |st.events|;
    assert r.events[..n + |prefixed|] == st.events + TableSignals(prefixed);
    forall i | 0 <= i < |p.tables| ensures r.events[n + i] ==
      TableRegistered(env.prefixedIfNotGlobal(p.tables[i].tableName, GlobalTables, env.hashString(ctx.sourcePath)), p.tables[i].fileName)
    {
      TableSignalsAt(prefixed, i);
      assert r.events[n + i] == r.events[..n + |prefixed|][n + i];
    }
  }

  /** The loader, then the registrations of a successful parse. */
  lemma LoaderThenTables(env: Env, st: HandlerState, parsed: Result<Grammar.ParsedLanguage, Grammar.ParseError>, el: ElementId, ctx: Context)
    requires parsed.Success?
    ensures var r := AfterParse(env, st.(events := st.events + [LoaderShown(el)]), parsed, el, ctx);
      var ts := parsed.value.tables;
      r.observers == st.observers && r.syncs == st.syncs && r.pending == st.pending &&
      |r.events| >= |st.events| + 1 + |ts| &&
      r.events[..|st.events| + 1] == st.events + [LoaderShown(el)] &&
      forall i :: 0 <= i < |ts| ==>
        (r.events[|st.events| + 1 + i] ==
         TableRegistered(env.prefixedIfNotGlobal(ts[i].tableName, GlobalTables, env.hashString(ctx.sourcePath)), ts[i].fileName))
  {
    var shown := st.(events := st.events + [LoaderShown(el)]);
    assert parsed == Success(parsed.value);
    ParsedRegistersTables(env, shown, parsed.value, el, ctx);
    var r := AfterParse(env, shown, parsed, el, ctx);
    assert |shown.events| == |st.events| + 1;
    assert r.events[..|st.events| + 1] == r.events[..|shown.events|][..|st.events| + 1];
  }

  /** A block that parses shows the loader, then registers every declared table
      in order under its prefixed name, and leaves the registry, the sync store
      and the pending work alone. */
  lemma BlockRegistersTables(env: Env, st: HandlerState, source: string, el: ElementId, ctx: Context)
    requires Grammar.ParseLanguage(source).Success?
    ensures var r := AfterBlock(env, st, source, el, ctx);
      var ts := Grammar.ParseLanguage(source).value.tables;
      r.observers == st.observers && r.syncs == st.syncs && r.pending == st.pending &&
      |r.events| >= |st.events| + 1 + |ts| &&
      r.events[..|st.events| + 1] == st.events + [LoaderShown(el)] &&
      forall i :: 0 <= i < |ts| ==>
        (r.events[|st.events| + 1 + i] ==
         TableRegistered(env.prefixedIfNotGlobal(ts[i].tableName, GlobalTables, env.hashString(ctx.sourcePath)), ts[i].fileName))
  {
    LoaderThenTables(env, st, Grammar.ParseLanguage(source), el, ctx);
  }

  /** After a successful parse, the last event is a query registration exactly
      when there is a query part whose tables could be rewritten and whose
      frontmatter could be resolved. */
  lemma ParsedQueryRegistered(env: Env, st: HandlerState, p: Grammar.ParsedLanguage, el: ElementId, ctx: Context)
    requires |st.events| > 0 && !st.events[|st.events| - 1].QueryRegistered?
    ensures var r := AfterParse(env, st, Success(p), el, ctx);
      |r.events| > 0 &&
      (r.events[|r.events| - 1].QueryRegistered? <==>
        p.queryPart != "" &&
        env.updateTables(p.queryPart, GlobalTables, env.hashString(ctx.sourcePath)).Success? &&
        env.resolveFrontmatter(ctx).Success?)
  {
    var prefixed := PrefixTables(env, p.tables, env.hashString(ctx.sourcePath));
    if |prefixed| > 0 {
      TableSignalsAt(prefixed, |prefixed| - 1);
    }
  }

  /** The block ends with a query registration exactly when it has a query part
      whose tables could be rewritten and whose frontmatter could be resolved. */
  lemma BlockQueryRegistered(env: Env, st: HandlerState, source: string, el: ElementId, ctx: Context)
    requires Grammar.ParseLanguage(source).Success?
    ensures var r := AfterBlock(env, st, source, el, ctx);
      var q := Grammar.ParseLanguage(source).value.queryPart;
      |r.events| > 0 &&
      (r.events[|r.events| - 1].QueryRegistered? <==>
        q != "" &&
        env.updateTables(q, GlobalTables, env.hashString(ctx.sourcePath)).Success? &&
        env.resolveFrontmatter(ctx).Success?)
  {
    var parsed := Grammar.ParseLanguage(source);
    ParsedQueryRegistered(env, st.(events := st.events + [LoaderShown(el)]), parsed.value, el, ctx);
  }

  /** A block that does not parse shows the loader and then the parse error, and
      registers nothing. */
  lemma BlockParseError(env: Env, st: HandlerState, source: string, el: ElementId, ctx: Context)
    requires Grammar.ParseLanguage(source).Failure?
    ensures var r := AfterBlock(env, st, source, el, ctx);
      r.observers == st.observers && r.syncs == st.syncs && r.pending == st.pending &&
      r.events == st.events + [LoaderShown(el), ErrorShown(el, Exception(false, env.parseErrorText(Grammar.ParseLanguage(source).error)))]
  {
  }

  /** End to end: a block written as declarations, blank lines, free text and a
      query registers exactly the declared tables, in order, under their
      prefixed names. */
  lemma DeclaredTablesRegistered(env: Env, st: HandlerState, decls: seq<string>, ts: seq<Grammar.TableStatement>,
                                 blanks: seq<string>, content: seq<string>, query: seq<string>, el: ElementId, ctx: Context)
    requires |decls| == |ts|
    requires forall i :: 0 <= i < |decls| ==> Grammar.ParseDeclaration(decls[i]) == Some(ts[i])
    requires forall i :: 0 <= i < |blanks| ==> Grammar.IsBlank(blanks[i])
    requires content + query == [] || Grammar.Classify((content + query)[0]) == Grammar.Content
    requires forall i :: 0 <= i < |content| ==> !Grammar.IsQueryLine(content[i])
    requires query == [] || Grammar.IsQueryLine(query[0])
    requires |decls + (blanks + (content + query))| > 0
    requires forall i :: 0 <= i < |decls + (blanks + (content + query))| ==> '\n' !in (decls + (blanks + (content + query)))[i]
    ensures var r := AfterBlock(env, st, Join(decls + (blanks + (content + query)), "\n"), el, ctx);
      |r.events| >= |st.events| + 1 + |ts| &&
      forall i :: 0 <= i < |ts| ==>
        (r.events[|st.events| + 1 + i] ==
         TableRegistered(env.prefixedIfNotGlobal(ts[i].tableName, GlobalTables, env.hashString(ctx.sourcePath)), ts[i].fileName))
  {
    var source := Join(decls + (blanks + (content + query)), "\n");
    Grammar.BlockText(decls, ts, blanks, content, query);
    BlockRegistersTables(env, st, source, el, ctx);
  }

  // ---------------------------------------------------------------------------
  // The drop statement of `setupTable`, as written and as intended.

  const DropPrefix: string := "DROP TABLE "

  /** The drop statement as the source writes it: a bind parameter stands
      where the table name goes. */
  const DropAsWritten: string := "DROP TABLE :tablename"

  /** SQLite's named bind parameters start with one of these characters. */
  predicate BindParameterStart(c: char) {
    c == ':' || c == '@' || c == '$' || c == '?'
  }

  /** Whether SQLite can prepare a `DROP TABLE` statement: a bind parameter
      can stand for a value, never for a table name, so the name must not start
      like one. */
  predicate DropPrepares(stmt: string) {
    |stmt| > |DropPrefix| && stmt[..|DropPrefix|] == DropPrefix && !BindParameterStart(stmt[|DropPrefix|])
  }

  /** The table a preparable drop statement names. */
  function DropTarget(stmt: string): string
    requires DropPrepares(stmt)
  {
    stmt[|DropPrefix|..]
  }

  /** How `setupTable` ends: normally, or by throwing after the given state. */
  datatype Outcome = Completed(state: HandlerState) | Threw(state: HandlerState)

  /** `setupTable` as written: in the branch for a table synced from another
      url, preparing the drop statement throws, after the load subscription is
      registered and before the sync record is removed or the file fired. */
  function AfterSetupTableAsWritten(env: Env, st: HandlerState, table: Grammar.TableStatement, ctx: Context): Outcome {
    var name := PrefixedName(env, ctx, table.tableName);
    var url := table.fileName;
    var key := (ctx.sourcePath, name);
    var registered := st.(observers := Register(st.observers, FileTopic(url), Subscription(LoadTable(ctx.sourcePath, name, url), ctx.docId)));
    if key in st.syncs && st.syncs[key] == url then
      Completed(registered.(pending := registered.pending + [FireLater(TableTopic(name))]))
    else if key in st.syncs && !DropPrepares(DropAsWritten) then
      Threw(registered)
    else
      var cleared :=
        if key in st.syncs then registered.(events := registered.events + [TableDropped(DropAsWritten)], syncs := registered.syncs - {key})
        else registered;
      Completed(AfterFire(cleared, FileTopic(url)))
  }

  /** The statement as written cannot be prepared. */
  lemma DropAsWrittenRejected()
    ensures !DropPrepares(DropAsWritten)
  {
    assert DropAsWritten[|DropPrefix|] == ':';
  }

  /** The discrepancy: when a note changes the url of a table it already
      loaded, the code as written throws, keeps the record of the old url and
      requests no load, so the table keeps the old file's rows; the corrected
      handler drops the table, forgets the old url and requests the new load. */
  lemma ChangedUrlAsWritten(env: Env, st: HandlerState, table: Grammar.TableStatement, ctx: Context)
    requires WellFormed(st.observers)
    requires SyncKeyOf(env, table, ctx) in st.syncs && !SyncedFrom(st, SyncKeyOf(env, table, ctx), table.fileName)
    ensures AfterSetupTableAsWritten(env, st, table, ctx).Threw?
    ensures AfterSetupTableAsWritten(env, st, table, ctx).state.syncs == st.syncs
    ensures AfterSetupTableAsWritten(env, st, table, ctx).state.events == st.events
    ensures SyncKeyOf(env, table, ctx) !in AfterSetupTable(env, st, table, ctx).syncs
    ensures var r := AfterSetupTable(env, st, table, ctx);
      |r.events| > 0 && r.events[|r.events| - 1] == LoadRequested(PrefixedName(env, ctx, table.tableName), table.fileName)
  {
    DropAsWrittenRejected();
    SetupTableOutcome(env, st, table, ctx);
    SetupTableLoadsLast(env, st, table, ctx);
  }

  /** The corrected statement can be prepared whenever the table name does not
      itself look like a bind parameter, and it drops that very table. */
  lemma DropStatementNamesTable(name: string)
    requires |name| > 0 && !BindParameterStart(name[0])
    ensures DropPrepares(DropStatement(name))
    ensures DropTarget(DropStatement(name)) == name
  {
    assert DropStatement(name)[..|DropPrefix|] == DropPrefix;
    assert DropStatement(name)[|DropPrefix|..] == name;
  }
}
