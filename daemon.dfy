/**
 * The daemon's own state and the operations that fill and use it: HANDLER_OBJECTS,
 * SC_HANDLERS and FS_WATCHED_FILES become the fields of one object, and the
 * functions of bin/crankd.py that update them become its methods.
 */
module Daemon {
  import opened Outcomes
  import opened Paths
  import opened Registry
  import opened Restart
  import opened FsDispatch

  /** The prefixes of the contexts handlers are built with, and the NotificationHandler selector. */
  const WORKSPACE_CONTEXT := "NSWorkspace Notification "
  const SC_CONTEXT := "SystemConfiguration: "
  const FS_CONTEXT := "FSEvent: "
  const NOTIFICATION_SELECTOR := "onNotification:"

  /** Where an observer registered with the NSWorkspace notification center delivers. */
  datatype ObserverTarget =
    | ClassInstance(obj: HandlerObject)                    // the shared instance of a "class" handler
    | NotificationHandler(name: string, callable: Handler)  // a NotificationHandler wrapping a callable

  /** One addObserver_selector_name_object_ call. */
  datatype Observer = Observer(target: ObserverTarget, selector: string, event: string)

  /** One handler call made by handle_sc_event: `handler(key=key, info=info)`. */
  datatype ScCall = ScCall(handler: Handler, key: string, info: string)

  /** Which configuration section an entry belongs to; FSEvents entries also need the filesystem. */
  datatype Section = Workspace | SystemConfiguration | FSEvents(fs: FileSystem)

  /** The cache only grows: every class instantiated once stays the one instance. */
  predicate CacheGrows(before: map<string, HandlerObject>, after: map<string, HandlerObject>) {
    forall k :: k in before ==> k in after && after[k] == before[k]
  }

  /**
   * Why get_callable_for_event fails for an entry, if it does: no handler key, a
   * name that does not resolve, a non-callable function, a class that cannot be
   * instantiated, or a method the instance lacks.
   */
  function ResolutionError(modules: ModuleTable, name: string, config: EventConfig): (r: Option<Error>)
    ensures SelectHandler(name, config).Err? ==> r == Some(NoHandlerKind(name))
    ensures SelectHandler(name, config).Ok? && SelectHandler(name, config).value.CommandSpec? ==> r.None?
  {
    var args := BoundArgs("", name, config);
    match SelectHandler(name, config)
    case Err(e) => Some(e)
    case Ok(CommandSpec(_)) => None
    case Ok(FunctionSpec(f)) =>
      (match BindFunction(modules, f, args) case Err(e) => Some(e) case Ok(_) => None)
    case Ok(MethodSpec(cls, m)) =>
      match Instantiation(modules, cls)
      case Err(e) => Some(e)
      case Ok(methods) => if m in methods then None else Some(MissingMethod(cls, m))
  }

  /**
   * What a handler built by get_callable_for_event is: the command with the bound
   * arguments, the resolved function, or the named method of the cached instance.
   */
  ghost predicate Resolved(cache: map<string, HandlerObject>, modules: ModuleTable, h: Handler,
                           name: string, config: EventConfig, context: string)
  {
    var args := BoundArgs(context, name, config);
    match SelectHandler(name, config)
    case Err(_) => false
    case Ok(CommandSpec(c)) => h == ShellCommand(c, args)
    case Ok(FunctionSpec(f)) => BindFunction(modules, f, args) == Ok(h)
    case Ok(MethodSpec(cls, m)) =>
      h.MethodCall? && h.methodName == m && h.args == args
      && cls in cache && cache[cls] == h.obj && m in h.obj.methods
  }

  /** A resolved handler stays resolved while the cache grows. */
  lemma ResolvedStable(before: map<string, HandlerObject>, after: map<string, HandlerObject>, modules: ModuleTable,
                       h: Handler, name: string, config: EventConfig, context: string)
    requires CacheGrows(before, after)
    requires Resolved(before, modules, h, name, config, context)
    ensures Resolved(after, modules, h, name, config, context)
  {
  }

  /** The class get_callable_for_event asks get_handler_object for: that of a "method" handler. */
  function MethodClass(name: string, config: EventConfig): Option<string> {
    match SelectHandler(name, config)
    case Ok(MethodSpec(cls, _)) => Some(cls)
    case _ => None
  }

  /** The class an entry of a section has get_handler_object instantiate, if any. */
  function EntryClass(section: Section, name: string, config: EventConfig): Option<string> {
    if section.Workspace? && config.handlerClass.Some? then config.handlerClass else MethodClass(name, config)
  }

  /**
   * What asking get_handler_object for `cls` (None: not asking) does to the cache:
   * nothing when the class is cached already or cannot be instantiated, otherwise
   * one entry for it and no other change.
   */
  ghost predicate CacheStep(modules: ModuleTable, before: map<string, HandlerObject>,
                            after: map<string, HandlerObject>, cls: Option<string>)
  {
    && CacheGrows(before, after)
    && if cls.None? || cls.value in before || Instantiation(modules, cls.value).Err? then after == before
       else after.Keys == before.Keys + {cls.value}
  }

  /** The class an entry adds to a cache that lacks it: its class, if that can be instantiated. */
  function AddedClass(modules: ModuleTable, section: Section, name: string, config: EventConfig): Option<string> {
    match EntryClass(section, name, config)
    case Some(cls) => if Instantiation(modules, cls).Ok? then Some(cls) else None
    case None => None
  }

  /** The classes that the first `n` entries of a section add to the cache. */
  function ClassesAdded(modules: ModuleTable, section: Section, entries: seq<(string, EventConfig)>, n: nat)
    : set<string>
    requires n <= |entries|
  {
    set j | 0 <= j < n && AddedClass(modules, section, entries[j].0, entries[j].1).Some?
      :: AddedClass(modules, section, entries[j].0, entries[j].1).value
  }

  /** Entry `i` moves the cache one step: its class, if it adds one, joins the classes added. */
  lemma ClassesAddedStep(modules: ModuleTable, section: Section, entries: seq<(string, EventConfig)>, i: nat,
                         base: set<string>, before: map<string, HandlerObject>, after: map<string, HandlerObject>)
    requires i < |entries|
    requires before.Keys == base + ClassesAdded(modules, section, entries, i)
    requires CacheStep(modules, before, after, EntryClass(section, entries[i].0, entries[i].1))
    ensures after.Keys == base + ClassesAdded(modules, section, entries, i + 1)
  {
    var added := AddedClass(modules, section, entries[i].0, entries[i].1);
    var earlier := ClassesAdded(modules, section, entries, i);
    assert ClassesAdded(modules, section, entries, i + 1) == earlier + if added.Some? then {added.value} else {};
  }

  /** The error an entry of a section makes its add_*_notifications function fail with, if any. */
  function EntryError(modules: ModuleTable, section: Section, name: string, config: EventConfig): Option<Error> {
    match section
    case Workspace =>
      if config.handlerClass.Some? then
        match Instantiation(modules, config.handlerClass.value)
        case Err(e) => Some(e)
        case Ok(methods) =>
          if PythonMethodName(name) in methods then None
          else Some(MissingMethod(config.handlerClass.value, PythonMethodName(name)))
      else ResolutionError(modules, name, config)
    case SystemConfiguration => ResolutionError(modules, name, config)
    case FSEvents(fs) =>
      match ResolutionError(modules, name, config)
      case Some(e) => Some(e)
      case None => if WatchRoot(fs, name).Err? then Some(WatchRoot(fs, name).error) else None
  }

  /** The errors of the entries of a section, entry by entry. */
  function EntryErrors(modules: ModuleTable, section: Section, entries: seq<(string, EventConfig)>)
    : (errs: seq<Option<Error>>)
    ensures |errs| == |entries|
  {
    if entries == [] then []
    else
      var last := entries[|entries| - 1];
      EntryErrors(modules, section, entries[..|entries| - 1]) + [EntryError(modules, section, last.0, last.1)]
  }

  lemma {:induction false} EntryErrorsAt(modules: ModuleTable, section: Section, entries: seq<(string, EventConfig)>,
                                         j: nat)
    requires j < |entries|
    ensures EntryErrors(modules, section, entries)[j] == EntryError(modules, section, entries[j].0, entries[j].1)
    decreases |entries|
  {
    var init := entries[..|entries| - 1];
    if j < |init| {
      assert init[j] == entries[j];
      EntryErrorsAt(modules, section, init, j);
    }
  }

  /** The first entry, in iteration order, that fails; none if all succeed. */
  function FirstFailure(errs: seq<Option<Error>>): (r: Option<nat>)
    ensures r.None? <==> forall j :: 0 <= j < |errs| ==> errs[j].None?
    ensures r.Some? ==> r.value < |errs| && errs[r.value].Some?
    ensures r.Some? ==> forall j :: 0 <= j < r.value ==> errs[j].None?
  {
    if errs == [] then None
    else if errs[0].Some? then Some(0)
    else
      match FirstFailure(errs[1..])
      case None => None
      case Some(j) => Some(j + 1)
  }

  /** How many entries are processed before the first failure. */
  function Processed(modules: ModuleTable, section: Section, entries: seq<(string, EventConfig)>): (n: nat)
    ensures n <= |entries|
  {
    match FirstFailure(EntryErrors(modules, section, entries))
    case None => |entries|
    case Some(j) => j
  }

  /** The error a section's configuration ends with. */
  function SectionError(modules: ModuleTable, section: Section, entries: seq<(string, EventConfig)>): Option<Error> {
    var errs := EntryErrors(modules, section, entries);
    match FirstFailure(errs)
    case None => None
    case Some(j) => errs[j]
  }

  /** How many entries add_*_notifications looks at: all of them, or up to the failing one. */
  function Reached(modules: ModuleTable, section: Section, entries: seq<(string, EventConfig)>): (n: nat)
    ensures n <= |entries|
  {
    if Processed(modules, section, entries) < |entries| then Processed(modules, section, entries) + 1 else |entries|
  }

  /** A dictionary's items: no key twice. */
  predicate DistinctKeys(entries: seq<(string, EventConfig)>) {
    forall i, j :: 0 <= i < j < |entries| ==> entries[i].0 != entries[j].0
  }

  /** The first `i` entries all succeed. */
  ghost predicate Succeeds(modules: ModuleTable, section: Section, entries: seq<(string, EventConfig)>, i: nat) {
    i <= |entries| && forall j :: 0 <= j < i ==> EntryErrors(modules, section, entries)[j].None?
  }

  lemma SucceedsStep(modules: ModuleTable, section: Section, entries: seq<(string, EventConfig)>, i: nat)
    requires Succeeds(modules, section, entries, i) && i < |entries|
    requires EntryError(modules, section, entries[i].0, entries[i].1).None?
    ensures Succeeds(modules, section, entries, i + 1)
  {
    EntryErrorsAt(modules, section, entries, i);
  }

  /** Entry `i` is the first failing one when it fails and all before it succeed. */
  lemma StopsAt(modules: ModuleTable, section: Section, entries: seq<(string, EventConfig)>, i: nat)
    requires Succeeds(modules, section, entries, i) && i < |entries|
    requires EntryError(modules, section, entries[i].0, entries[i].1).Some?
    ensures Processed(modules, section, entries) == i
    ensures SectionError(modules, section, entries) == EntryError(modules, section, entries[i].0, entries[i].1)
  {
    EntryErrorsAt(modules, section, entries, i);
    var errs := EntryErrors(modules, section, entries);
    assert FirstFailure(errs) == Some(i);
  }

  lemma RunsThrough(modules: ModuleTable, section: Section, entries: seq<(string, EventConfig)>)
    requires Succeeds(modules, section, entries, |entries|)
    ensures Processed(modules, section, entries) == |entries|
    ensures SectionError(modules, section, entries).None?
  {
  }

  /** What add_workspace_notifications registers for one event. */
  ghost predicate ObserverFor(cache: map<string, HandlerObject>, modules: ModuleTable, o: Observer,
                              event: string, entry: EventConfig)
  {
    && o.event == event
    && (entry.handlerClass.Some? ==>
          && o.target.ClassInstance?
          && o.selector == NotificationSelector(event)
          && entry.handlerClass.value in cache && cache[entry.handlerClass.value] == o.target.obj
          && PythonMethodName(event) in o.target.obj.methods)
    && (entry.handlerClass.None? ==>
          && o.target.NotificationHandler?
          && o.target.name == WORKSPACE_CONTEXT + event
          && o.selector == NOTIFICATION_SELECTOR
          && Resolved(cache, modules, o.target.callable, event, entry, o.target.name))
  }

  lemma ObserverForStable(before: map<string, HandlerObject>, after: map<string, HandlerObject>, modules: ModuleTable,
                          o: Observer, event: string, entry: EventConfig)
    requires CacheGrows(before, after)
    requires ObserverFor(before, modules, o, event, entry)
    ensures ObserverFor(after, modules, o, event, entry)
  {
    if entry.handlerClass.None? {
      ResolvedStable(before, after, modules, o.target.callable, event, entry, o.target.name);
    }
  }

  /** The keys of the first `i` entries of a configuration section. */
  function KeysBefore(entries: seq<(string, EventConfig)>, i: nat): set<string>
    requires i <= |entries|
  {
    set j | 0 <= j < i :: entries[j].0
  }

  /** SC_HANDLERS holds the handler of `key`, built with the context "SystemConfiguration: <key>". */
  ghost predicate ScInstalled(cache: map<string, HandlerObject>, modules: ModuleTable, handlers: map<string, Handler>,
                              key: string, entry: EventConfig)
  {
    key in handlers && Resolved(cache, modules, handlers[key], key, entry, SC_CONTEXT + key)
  }

  /** The watch index only grows: no directory is dropped and no callback removed. */
  predicate IndexGrows(before: WatchIndex, after: WatchIndex) {
    forall k :: k in before ==> k in after && before[k] <= after[k]
  }

  lemma RegisterGrows(index: WatchIndex, root: string, callback: Callback)
    ensures IndexGrows(index, Register(index, root, callback))
  {
  }

  /** FS_WATCHED_FILES holds, under the directory watching `path`, a handler built for it. */
  ghost predicate FsInstalled(cache: map<string, HandlerObject>, modules: ModuleTable, index: WatchIndex,
                              fs: FileSystem, path: string, entry: EventConfig)
  {
    && WatchRoot(fs, path).Ok?
    && WatchRoot(fs, path).value in index
    && exists j :: 0 <= j < |index[WatchRoot(fs, path).value]|
                   && index[WatchRoot(fs, path).value][j].UserCallback?
                   && Resolved(cache, modules, index[WatchRoot(fs, path).value][j].handler, path, entry, FS_CONTEXT + path)
  }

  lemma FsInstalledStable(cacheBefore: map<string, HandlerObject>, cacheAfter: map<string, HandlerObject>,
                          indexBefore: WatchIndex, indexAfter: WatchIndex, modules: ModuleTable,
                          fs: FileSystem, path: string, entry: EventConfig)
    requires CacheGrows(cacheBefore, cacheAfter) && IndexGrows(indexBefore, indexAfter)
    requires FsInstalled(cacheBefore, modules, indexBefore, fs, path, entry)
    ensures FsInstalled(cacheAfter, modules, indexAfter, fs, path, entry)
  {
    var root := WatchRoot(fs, path).value;
    var j :| 0 <= j < |indexBefore[root]| && indexBefore[root][j].UserCallback?
             && Resolved(cacheBefore, modules, indexBefore[root][j].handler, path, entry, FS_CONTEXT + path);
    ResolvedStable(cacheBefore, cacheAfter, modules, indexBefore[root][j].handler, path, entry, FS_CONTEXT + path);
    assert indexBefore[root] <= indexAfter[root];
    assert indexAfter[root][j] == indexBefore[root][j];
  }

  /** After `i` entries, add_workspace_notifications has one observer per entry. */
  ghost predicate WorkspaceConfigured(cache: map<string, HandlerObject>, modules: ModuleTable,
                                      observers: seq<Observer>, config: seq<(string, EventConfig)>, i: nat)
  {
    && Succeeds(modules, Workspace, config, i)
    && |observers| == i
    && (forall j :: 0 <= j < i ==> ObserverFor(cache, modules, observers[j], config[j].0, config[j].1))
  }

  /** Observers registered stay valid while the cache grows. */
  lemma WorkspaceConfiguredCache(cache: map<string, HandlerObject>, cache': map<string, HandlerObject>,
                                 modules: ModuleTable, observers: seq<Observer>, config: seq<(string, EventConfig)>,
                                 i: nat)
    requires WorkspaceConfigured(cache, modules, observers, config, i)
    requires CacheGrows(cache, cache')
    ensures WorkspaceConfigured(cache', modules, observers, config, i)
  {
    forall j | 0 <= j < i
      ensures ObserverFor(cache', modules, observers[j], config[j].0, config[j].1)
    {
      ObserverForStable(cache, cache', modules, observers[j], config[j].0, config[j].1);
    }
  }

  lemma WorkspaceConfiguredStep(cache: map<string, HandlerObject>, modules: ModuleTable, observers: seq<Observer>,
                                config: seq<(string, EventConfig)>, i: nat, o: Observer)
    requires WorkspaceConfigured(cache, modules, observers, config, i) && i < |config|
    requires Succeeds(modules, Workspace, config, i + 1)
    requires ObserverFor(cache, modules, o, config[i].0, config[i].1)
    ensures WorkspaceConfigured(cache, modules, observers + [o], config, i + 1)
  {
    assert forall j :: 0 <= j < i ==> (observers + [o])[j] == observers[j];
  }

  /**
   * After `i` entries, add_sc_notifications has installed the handler of each of
   * their keys and left every other handler in place.
   */
  ghost predicate ScConfigured(cache: map<string, HandlerObject>, modules: ModuleTable, handlers: map<string, Handler>,
                               before: map<string, Handler>, config: seq<(string, EventConfig)>, i: nat)
  {
    && Succeeds(modules, SystemConfiguration, config, i)
    && handlers.Keys == before.Keys + KeysBefore(config, i)
    && (forall j :: 0 <= j < i ==> ScInstalled(cache, modules, handlers, config[j].0, config[j].1))
    && (forall k :: k in before && k !in KeysBefore(config, i) ==> handlers[k] == before[k])
  }

  /** Handlers installed stay installed while the cache grows. */
  lemma ScConfiguredCache(cache: map<string, HandlerObject>, cache': map<string, HandlerObject>, modules: ModuleTable,
                          handlers: map<string, Handler>, before: map<string, Handler>,
                          config: seq<(string, EventConfig)>, i: nat)
    requires ScConfigured(cache, modules, handlers, before, config, i)
    requires CacheGrows(cache, cache')
    ensures ScConfigured(cache', modules, handlers, before, config, i)
  {
    forall j | 0 <= j < i
      ensures ScInstalled(cache', modules, handlers, config[j].0, config[j].1)
    {
      ResolvedStable(cache, cache', modules, handlers[config[j].0], config[j].0, config[j].1, SC_CONTEXT + config[j].0);
    }
  }

  lemma ScConfiguredStep(cache: map<string, HandlerObject>, modules: ModuleTable,
                         handlers: map<string, Handler>, before: map<string, Handler>,
                         config: seq<(string, EventConfig)>, i: nat, h: Handler)
    requires ScConfigured(cache, modules, handlers, before, config, i) && i < |config|
    requires DistinctKeys(config)
    requires Succeeds(modules, SystemConfiguration, config, i + 1)
    requires Resolved(cache, modules, h, config[i].0, config[i].1, SC_CONTEXT + config[i].0)
    ensures ScConfigured(cache, modules, handlers[config[i].0 := h], before, config, i + 1)
  {
    ScInstalledStep(cache, modules, handlers, config, i, h);
    KeysStep(handlers, before, config, i, h);
  }

  lemma ScInstalledStep(cache: map<string, HandlerObject>, modules: ModuleTable, handlers: map<string, Handler>,
                        config: seq<(string, EventConfig)>, i: nat, h: Handler)
    requires i < |config| && DistinctKeys(config)
    requires forall j :: 0 <= j < i ==> ScInstalled(cache, modules, handlers, config[j].0, config[j].1)
    requires Resolved(cache, modules, h, config[i].0, config[i].1, SC_CONTEXT + config[i].0)
    ensures forall j :: 0 <= j < i + 1 ==> ScInstalled(cache, modules, handlers[config[i].0 := h], config[j].0, config[j].1)
  {
    forall j | 0 <= j < i + 1
      ensures ScInstalled(cache, modules, handlers[config[i].0 := h], config[j].0, config[j].1)
    {
      if j < i {
        assert config[j].0 != config[i].0;
      }
    }
  }

  /** Installing the handler of key `i` adds that key and changes no key outside the section. */
  lemma KeysStep(handlers: map<string, Handler>, before: map<string, Handler>, config: seq<(string, EventConfig)>,
                 i: nat, h: Handler)
    requires i < |config|
    requires handlers.Keys == before.Keys + KeysBefore(config, i)
    requires forall k :: k in before && k !in KeysBefore(config, i) ==> handlers[k] == before[k]
    ensures handlers[config[i].0 := h].Keys == before.Keys + KeysBefore(config, i + 1)
    ensures forall k :: k in before && k !in KeysBefore(config, i + 1) ==> handlers[config[i].0 := h][k] == before[k]
  {
    assert KeysBefore(config, i + 1) == KeysBefore(config, i) + {config[i].0};
  }

  /** The roots that the first `i` entries of an FSEvents section are watched under. */
  ghost function RootsOf(fs: FileSystem, config: seq<(string, EventConfig)>, i: nat): set<string>
    requires i <= |config|
  {
    set j | 0 <= j < i && WatchRoot(fs, config[j].0).Ok? :: WatchRoot(fs, config[j].0).value
  }

  /**
   * After `i` entries, add_fs_notifications has put a handler for each of their
   * paths under the directory watching it, and dropped nothing.
   */
  ghost predicate FsConfigured(cache: map<string, HandlerObject>, modules: ModuleTable, index: WatchIndex,
                               before: WatchIndex, fs: FileSystem, config: seq<(string, EventConfig)>, i: nat)
  {
    && Succeeds(modules, FSEvents(fs), config, i)
    && IndexGrows(before, index)
    && index.Keys == before.Keys + RootsOf(fs, config, i)
    && (forall j :: 0 <= j < i ==> FsInstalled(cache, modules, index, fs, config[j].0, config[j].1))
  }

  /** Handlers installed stay installed while the cache grows. */
  lemma FsConfiguredCache(cache: map<string, HandlerObject>, cache': map<string, HandlerObject>, modules: ModuleTable,
                          index: WatchIndex, before: WatchIndex, fs: FileSystem,
                          config: seq<(string, EventConfig)>, i: nat)
    requires FsConfigured(cache, modules, index, before, fs, config, i)
    requires CacheGrows(cache, cache')
    ensures FsConfigured(cache', modules, index, before, fs, config, i)
  {
    forall j | 0 <= j < i
      ensures FsInstalled(cache', modules, index, fs, config[j].0, config[j].1)
    {
      FsInstalledStable(cache, cache', index, index, modules, fs, config[j].0, config[j].1);
    }
  }

  lemma RootsOfStep(fs: FileSystem, config: seq<(string, EventConfig)>, i: nat)
    requires i < |config| && WatchRoot(fs, config[i].0).Ok?
    ensures RootsOf(fs, config, i + 1) == RootsOf(fs, config, i) + {WatchRoot(fs, config[i].0).value}
  {
  }

  /** Registering a handler built for entry `i` installs it and keeps the earlier ones. */
  lemma FsInstalledRegister(cache: map<string, HandlerObject>, modules: ModuleTable, index: WatchIndex, fs: FileSystem,
                            config: seq<(string, EventConfig)>, i: nat, h: Handler)
    requires i < |config| && WatchRoot(fs, config[i].0).Ok?
    requires forall j :: 0 <= j < i ==> FsInstalled(cache, modules, index, fs, config[j].0, config[j].1)
    requires Resolved(cache, modules, h, config[i].0, config[i].1, FS_CONTEXT + config[i].0)
    ensures forall j :: 0 <= j < i + 1 ==>
      FsInstalled(cache, modules, Register(index, WatchRoot(fs, config[i].0).value, UserCallback(h)), fs,
                  config[j].0, config[j].1)
  {
    var root := WatchRoot(fs, config[i].0).value;
    var index' := Register(index, root, UserCallback(h));
    RegisterGrows(index, root, UserCallback(h));
    forall j | 0 <= j < i + 1
      ensures FsInstalled(cache, modules, index', fs, config[j].0, config[j].1)
    {
      if j < i {
        FsInstalledStable(cache, cache, index, index', modules, fs, config[j].0, config[j].1);
      } else {
        assert index'[root][|index'[root]| - 1] == UserCallback(h);
      }
    }
  }

  lemma FsConfiguredStep(cache: map<string, HandlerObject>, modules: ModuleTable,
                         index: WatchIndex, before: WatchIndex, fs: FileSystem,
                         config: seq<(string, EventConfig)>, i: nat, h: Handler)
    requires FsConfigured(cache, modules, index, before, fs, config, i) && i < |config|
    requires Succeeds(modules, FSEvents(fs), config, i + 1)
    requires WatchRoot(fs, config[i].0).Ok?
    requires Resolved(cache, modules, h, config[i].0, config[i].1, FS_CONTEXT + config[i].0)
    ensures FsConfigured(cache, modules, Register(index, WatchRoot(fs, config[i].0).value, UserCallback(h)),
                         before, fs, config, i + 1)
  {
    var root := WatchRoot(fs, config[i].0).value;
    RegisterGrows(index, root, UserCallback(h));
    RootsOfStep(fs, config, i);
    FsInstalledRegister(cache, modules, index, fs, config, i, h);
    assert IndexGrows(before, Register(index, root, UserCallback(h))) by {
      IndexGrowsTransitive(before, index, Register(index, root, UserCallback(h)));
    }
  }

  /**
   * The index after the handlers built for the first |handlers| entries of an
   * FSEvents section are registered, in order, under the directories watching
   * their paths.
   */
  function Installed(index: WatchIndex, fs: FileSystem, config: seq<(string, EventConfig)>,
                     handlers: seq<Handler>): WatchIndex
    requires |handlers| <= |config|
    decreases |handlers|
  {
    if handlers == [] then index
    else
      var i := |handlers| - 1;
      var prev := Installed(index, fs, config, handlers[..i]);
      match WatchRoot(fs, config[i].0)
      case Ok(root) => Register(prev, root, UserCallback(handlers[i]))
      case Err(_) => prev
  }

  /** The callbacks that those entries put under `root`, in configuration order. */
  function CallbacksUnder(fs: FileSystem, config: seq<(string, EventConfig)>, handlers: seq<Handler>,
                          root: string): seq<Callback>
    requires |handlers| <= |config|
    decreases |handlers|
  {
    if handlers == [] then []
    else
      var i := |handlers| - 1;
      var mine := WatchRoot(fs, config[i].0).Ok? && WatchRoot(fs, config[i].0).value == root;
      CallbacksUnder(fs, config, handlers[..i], root) + if mine then [UserCallback(handlers[i])] else []
  }

  /**
   * Registering a section appends to each directory's list exactly the callbacks
   * of the entries it watches, in order, and leaves every other directory alone.
   */
  lemma {:induction false} InstalledLists(index: WatchIndex, fs: FileSystem, config: seq<(string, EventConfig)>,
                                          handlers: seq<Handler>, root: string)
    requires |handlers| <= |config|
    ensures root in Installed(index, fs, config, handlers)
            <==> root in index || CallbacksUnder(fs, config, handlers, root) != []
    ensures root in Installed(index, fs, config, handlers) ==>
              Installed(index, fs, config, handlers)[root]
              == (if root in index then index[root] else []) + CallbacksUnder(fs, config, handlers, root)
  {
    if handlers != [] {
      var i := |handlers| - 1;
      InstalledLists(index, fs, config, handlers[..i], root);
      var prev := Installed(index, fs, config, handlers[..i]);
      var before := if root in index then index[root] else [];
      if WatchRoot(fs, config[i].0).Ok? && WatchRoot(fs, config[i].0).value == root {
        assert root in prev ==> prev[root] + [UserCallback(handlers[i])]
                                == before + (CallbacksUnder(fs, config, handlers[..i], root) + [UserCallback(handlers[i])]);
      }
    }
  }

  /**
   * After |handlers| entries, add_fs_notifications has registered exactly the
   * handler built for each of them, in order.
   */
  ghost predicate FsBuilt(cache: map<string, HandlerObject>, modules: ModuleTable, index: WatchIndex,
                          before: WatchIndex, fs: FileSystem, config: seq<(string, EventConfig)>,
                          handlers: seq<Handler>)
  {
    && |handlers| <= |config|
    && index == Installed(before, fs, config, handlers)
    && forall j :: 0 <= j < |handlers| ==>
         Resolved(cache, modules, handlers[j], config[j].0, config[j].1, FS_CONTEXT + config[j].0)
  }

  lemma FsBuiltCache(cache: map<string, HandlerObject>, cache': map<string, HandlerObject>, modules: ModuleTable,
                     index: WatchIndex, before: WatchIndex, fs: FileSystem,
                     config: seq<(string, EventConfig)>, handlers: seq<Handler>)
    requires FsBuilt(cache, modules, index, before, fs, config, handlers)
    requires CacheGrows(cache, cache')
    ensures FsBuilt(cache', modules, index, before, fs, config, handlers)
  {
    forall j | 0 <= j < |handlers|
      ensures Resolved(cache', modules, handlers[j], config[j].0, config[j].1, FS_CONTEXT + config[j].0)
    {
      ResolvedStable(cache, cache', modules, handlers[j], config[j].0, config[j].1, FS_CONTEXT + config[j].0);
    }
  }

  lemma FsBuiltStep(cache: map<string, HandlerObject>, modules: ModuleTable,
                    index: WatchIndex, before: WatchIndex, fs: FileSystem,
                    config: seq<(string, EventConfig)>, handlers: seq<Handler>, h: Handler)
    requires FsBuilt(cache, modules, index, before, fs, config, handlers) && |handlers| < |config|
    requires WatchRoot(fs, config[|handlers|].0).Ok?
    requires Resolved(cache, modules, h, config[|handlers|].0, config[|handlers|].1, FS_CONTEXT + config[|handlers|].0)
    ensures FsBuilt(cache, modules, Register(index, WatchRoot(fs, config[|handlers|].0).value, UserCallback(h)),
                    before, fs, config, handlers + [h])
  {
    assert (handlers + [h])[..|handlers|] == handlers;
  }

  /** Growing twice is growing. */
  lemma IndexGrowsTransitive(a: WatchIndex, b: WatchIndex, c: WatchIndex)
    requires IndexGrows(a, b) && IndexGrows(b, c)
    ensures IndexGrows(a, c)
  {
    forall k | k in a
      ensures a[k] <= c[k]
    {
      assert c[k][..|a[k]|] == b[k][..|a[k]|];
    }
  }

  /**
   * The inner loop of fsevent_callback for one watched directory: its callbacks in
   * order, after the calls `before` whose effects are `trace0`; `done` are the calls
   * made, all of them unless a restart check fired.
   */
  method DispatchRoot(mtime: map<string, int>, root: string, callbacks: seq<Callback>, path: string, recursive: bool,
                      ghost before: seq<Call>, trace0: seq<Invocation>)
    returns (trace: seq<Invocation>, restart: Option<RestartReason>, ghost done: seq<Call>)
    requires Execute(before, mtime) == Effects(trace0, None)
    ensures done <= RootCalls(root, callbacks, path, recursive)
    ensures restart.None? ==> done == RootCalls(root, callbacks, path, recursive)
    ensures Execute(before + done, mtime) == Effects(trace, restart)
  {
    trace := trace0;
    restart := None;
    done := [];
    assert before + done == before;
    for j := 0 to |callbacks|
      invariant done == RootCalls(root, callbacks[..j], path, recursive)
      invariant Execute(before + done, mtime) == Effects(trace, None)
      invariant restart.None?
    {
      ghost var call := Call(root, callbacks[j], path, recursive);
      match callbacks[j] {
        case UserCallback(h) =>
          trace := trace + [Invocation(root, h, path, recursive)];
        case RestartCheck(file, baseline, reason) =>
          restart := CondRestart(mtime, file, baseline, reason);
      }
      assert (before + done + [call])[..|before + done|] == before + done;
      assert before + (done + [call]) == before + done + [call];
      assert Execute(before + done + [call], mtime) == Effects(trace, restart);
      RootCallsSnoc(root, callbacks, j, path, recursive);
      done := done + [call];
      if restart.Some? {
        RootCallsPrefix(root, callbacks, j + 1, path, recursive);
        return;
      }
    }
    assert callbacks[..|callbacks|] == callbacks;
  }

  /**
   * The middle loop of fsevent_callback for one event: the callbacks of every
   * matching root in turn; `done` are the calls made, all of the event's unless a
   * restart check fired.
   */
  method DispatchEvent(mtime: map<string, int>, index: WatchIndex, roots: seq<string>, path: string, recursive: bool,
                       ghost before: seq<Call>, trace0: seq<Invocation>)
    returns (trace: seq<Invocation>, restart: Option<RestartReason>, ghost done: seq<Call>)
    requires forall k :: k in roots ==> k in index
    requires Execute(before, mtime) == Effects(trace0, None)
    ensures done <= EventCalls(index, roots, path, recursive)
    ensures restart.None? ==> done == EventCalls(index, roots, path, recursive)
    ensures Execute(before + done, mtime) == Effects(trace, restart)
  {
    trace := trace0;
    restart := None;
    done := [];
    assert before + done == before;
    for r := 0 to |roots|
      invariant done == EventCalls(index, roots[..r], path, recursive)
      invariant Execute(before + done, mtime) == Effects(trace, None)
      invariant restart.None?
    {
      ghost var part;
      trace, restart, part := DispatchRoot(mtime, roots[r], index[roots[r]], path, recursive, before + done, trace);
      assert before + done + part == before + (done + part);
      if restart.Some? {
        EventPartIsPrefix(index, roots, r, part, path, recursive);
        done := done + part;
        return;
      }
      EventCallsSnoc(index, roots, r, path, recursive);
      done := done + part;
    }
    assert roots[..|roots|] == roots;
  }

  /** The daemon's global state. */
  class Crankd {
    /** What `__import__` can load: fixed for the daemon's lifetime. */
    const modules: ModuleTable
    /** HANDLER_OBJECTS: one instance per handler class name. */
    var handlerObjects: map<string, HandlerObject>
    /** SC_HANDLERS: SystemConfiguration key to its handler. */
    var scHandlers: map<string, Handler>
    /** FS_WATCHED_FILES: watched directory to its callbacks. */
    var fsWatchedFiles: WatchIndex

    /**
     * Every cached instance is an instance of the class it is filed under, and every
     * watched directory has at least one callback.
     */
    ghost predicate Valid()
      reads this
    {
      && (forall k :: k in handlerObjects ==>
            handlerObjects[k].className == k && Instantiation(modules, k) == Ok(handlerObjects[k].methods))
      && (forall k :: k in fsWatchedFiles ==> fsWatchedFiles[k] != [])
    }

    constructor (modules: ModuleTable)
      ensures Valid()
      ensures this.modules == modules
      ensures handlerObjects == map[] && scHandlers == map[] && fsWatchedFiles == map[]
    {
      this.modules := modules;
      handlerObjects := map[];
      scHandlers := map[];
      fsWatchedFiles := map[];
    }

    /**
     * get_handler_object: the cached instance of `className`, or a new one that is
     * cached; a class that cannot be instantiated leaves the cache as it was.
     */
    method GetHandlerObject(className: string) returns (r: Result<HandlerObject>)
      requires Valid()
      modifies this`handlerObjects
      ensures Valid()
      ensures r.Ok? <==> Instantiation(modules, className).Ok?
      ensures r.Err? ==> r.error == Instantiation(modules, className).error && handlerObjects == old(handlerObjects)
      ensures r.Ok? ==> r.value.className == className && r.value.methods == Instantiation(modules, className).value
      ensures r.Ok? ==> handlerObjects == old(handlerObjects)[className := r.value]
      ensures className in old(handlerObjects) ==> r == Ok(old(handlerObjects)[className])
      ensures className !in old(handlerObjects) && r.Ok? ==> fresh(r.value)
      ensures CacheGrows(old(handlerObjects), handlerObjects)
      ensures CacheStep(modules, old(handlerObjects), handlerObjects, Some(className))
    {
      if className in handlerObjects {
        return Ok(handlerObjects[className]);
      }
      match Instantiation(modules, className) {
        case Err(e) =>
          r := Err(e);
        case Ok(methods) =>
          var obj := new HandlerObject(className, methods);
          handlerObjects := handlerObjects[className := obj];
          r := Ok(obj);
      }
    }

    /**
     * get_callable_for_event: the handler for an entry, with the context, the key and
     * the entry bound into it; command before function before method.
     */
    method GetCallableForEvent(name: string, config: EventConfig, context: string) returns (r: Result<Handler>)
      requires Valid()
      modifies this`handlerObjects
      ensures Valid()
      ensures CacheGrows(old(handlerObjects), handlerObjects)
      ensures r.Err? <==> ResolutionError(modules, name, config).Some?
      ensures r.Err? ==> Some(r.error) == ResolutionError(modules, name, config)
      ensures r.Ok? ==> Resolved(handlerObjects, modules, r.value, name, config, context)
      ensures SelectHandler(name, config).Ok? && SelectHandler(name, config).value.MethodSpec? ==>
        var cls := SelectHandler(name, config).value.className;
        cls in old(handlerObjects) && r.Ok? ==> r.value.obj == old(handlerObjects)[cls]
      ensures !(SelectHandler(name, config).Ok? && SelectHandler(name, config).value.MethodSpec?) ==>
        handlerObjects == old(handlerObjects)
      ensures CacheStep(modules, old(handlerObjects), handlerObjects, MethodClass(name, config))
    {
      var args := BoundArgs(context, name, config);
      var spec := SelectHandler(name, config);
      match spec {
        case Err(e) =>
          r := Err(e);
        case Ok(CommandSpec(c)) =>
          r := Ok(ShellCommand(c, args));
        case Ok(FunctionSpec(f)) =>
          r := BindFunction(modules, f, args);
        case Ok(MethodSpec(cls, m)) =>
          var obj := GetHandlerObject(cls);
          match obj {
            case Err(e) =>
              r := Err(e);
            case Ok(o) =>
              if m in o.methods {
                r := Ok(MethodCall(o, m, args));
              } else {
                r := Err(MissingMethod(cls, m));
              }
          }
      }
    }

    /**
     * The body of add_workspace_notifications' loop for one event: a "class" entry
     * gives the shared instance under "on<event>:" and fails if the instance lacks
     * "on<event>_"; any other entry gives a NotificationHandler named after the event.
     */
    method WorkspaceObserver(event: string, entry: EventConfig) returns (r: Result<Observer>)
      requires Valid()
      modifies this`handlerObjects
      ensures Valid()
      ensures CacheGrows(old(handlerObjects), handlerObjects)
      ensures r.Err? <==> EntryError(modules, Workspace, event, entry).Some?
      ensures r.Err? ==> Some(r.error) == EntryError(modules, Workspace, event, entry)
      ensures r.Ok? ==> ObserverFor(handlerObjects, modules, r.value, event, entry)
      ensures CacheStep(modules, old(handlerObjects), handlerObjects, EntryClass(Workspace, event, entry))
    {
      if entry.handlerClass.Some? {
        assert EntryClass(Workspace, event, entry) == entry.handlerClass;
        var obj := GetHandlerObject(entry.handlerClass.value);
        if obj.Err? {
          return Err(obj.error);
        }
        var pyMethod := PythonMethodName(event);
        if pyMethod !in obj.value.methods {
          return Err(MissingMethod(entry.handlerClass.value, pyMethod));
        }
        r := Ok(Observer(ClassInstance(obj.value), NotificationSelector(event), event));
      } else {
        assert EntryClass(Workspace, event, entry) == MethodClass(event, entry);
        var name := WORKSPACE_CONTEXT + event;
        var callable := GetCallableForEvent(event, entry, name);
        if callable.Err? {
          return Err(callable.error);
        }
        r := Ok(Observer(NotificationHandler(name, callable.value), NOTIFICATION_SELECTOR, event));
      }
    }

    /**
     * add_workspace_notifications: one observer per event, in iteration order; the
     * first failing entry stops the loop (sys.exit or an escaping exception).
     */
    method AddWorkspaceNotifications(config: seq<(string, EventConfig)>)
      returns (observers: seq<Observer>, err: Option<Error>)
      requires Valid()
      modifies this`handlerObjects
      ensures Valid()
      ensures CacheGrows(old(handlerObjects), handlerObjects)
      ensures err == SectionError(modules, Workspace, config)
      ensures WorkspaceConfigured(handlerObjects, modules, observers, config, Processed(modules, Workspace, config))
      ensures handlerObjects.Keys
              == old(handlerObjects).Keys + ClassesAdded(modules, Workspace, config, Reached(modules, Workspace, config))
    {
      observers := [];
      for i := 0 to |config|
        invariant Valid()
        invariant CacheGrows(old(handlerObjects), handlerObjects)
        invariant WorkspaceConfigured(handlerObjects, modules, observers, config, i)
        invariant handlerObjects.Keys == old(handlerObjects).Keys + ClassesAdded(modules, Workspace, config, i)
      {
        ghost var before := handlerObjects;
        var observer := WorkspaceObserver(config[i].0, config[i].1);
        WorkspaceConfiguredCache(before, handlerObjects, modules, observers, config, i);
        ClassesAddedStep(modules, Workspace, config, i, old(handlerObjects).Keys, before, handlerObjects);
        if observer.Err? {
          err := Some(observer.error);
          StopsAt(modules, Workspace, config, i);
          return;
        }
        SucceedsStep(modules, Workspace, config, i);
        WorkspaceConfiguredStep(handlerObjects, modules, observers, config, i, observer.value);
        observers := observers + [observer.value];
      }
      err := None;
      RunsThrough(modules, Workspace, config);
    }

    /**
     * One key of add_sc_notifications: build its handler and install it in
     * SC_HANDLERS; a failing entry installs nothing.
     */
    method AddScEntry(config: seq<(string, EventConfig)>, i: nat, ghost before: map<string, Handler>)
      returns (err: Option<Error>)
      requires Valid()
      requires DistinctKeys(config) && i < |config|
      requires ScConfigured(handlerObjects, modules, scHandlers, before, config, i)
      modifies this`scHandlers, this`handlerObjects
      ensures Valid()
      ensures CacheGrows(old(handlerObjects), handlerObjects)
      ensures err == EntryError(modules, SystemConfiguration, config[i].0, config[i].1)
      ensures ScConfigured(handlerObjects, modules, scHandlers, before, config, if err.None? then i + 1 else i)
      ensures CacheStep(modules, old(handlerObjects), handlerObjects,
                        EntryClass(SystemConfiguration, config[i].0, config[i].1))
    {
      var (key, entry) := config[i];
      ghost var cache := handlerObjects;
      var handler := GetCallableForEvent(key, entry, SC_CONTEXT + key);
      ScConfiguredCache(cache, handlerObjects, modules, scHandlers, before, config, i);
      if handler.Err? {
        return Some(handler.error);
      }
      SucceedsStep(modules, SystemConfiguration, config, i);
      ScConfiguredStep(handlerObjects, modules, scHandlers, before, config, i, handler.value);
      scHandlers := scHandlers[key := handler.value];
      err := None;
    }

    /**
     * add_sc_notifications: SC_HANDLERS gets the handler of every key, with the
     * context "SystemConfiguration: <key>", until the first entry that fails.
     */
    method AddScNotifications(config: seq<(string, EventConfig)>) returns (err: Option<Error>)
      requires Valid()
      requires DistinctKeys(config)
      modifies this`scHandlers, this`handlerObjects
      ensures Valid()
      ensures CacheGrows(old(handlerObjects), handlerObjects)
      ensures err == SectionError(modules, SystemConfiguration, config)
      ensures ScConfigured(handlerObjects, modules, scHandlers, old(scHandlers), config,
                           Processed(modules, SystemConfiguration, config))
      ensures handlerObjects.Keys == old(handlerObjects).Keys
              + ClassesAdded(modules, SystemConfiguration, config, Reached(modules, SystemConfiguration, config))
    {
      for i := 0 to |config|
        invariant Valid()
        invariant CacheGrows(old(handlerObjects), handlerObjects)
        invariant ScConfigured(handlerObjects, modules, scHandlers, old(scHandlers), config, i)
        invariant handlerObjects.Keys == old(handlerObjects).Keys + ClassesAdded(modules, SystemConfiguration, config, i)
      {
        ghost var cache := handlerObjects;
        err := AddScEntry(config, i, old(scHandlers));
        ClassesAddedStep(modules, SystemConfiguration, config, i, old(handlerObjects).Keys, cache, handlerObjects);
        if err.Some? {
          StopsAt(modules, SystemConfiguration, config, i);
          return;
        }
      }
      err := None;
      RunsThrough(modules, SystemConfiguration, config);
    }

    /**
     * handle_sc_event: call the handler of every changed key, in order, with the key
     * and the change information; a key without a handler raises KeyError there.
     */
    method HandleScEvent(changedKeys: seq<string>, info: string) returns (calls: seq<ScCall>, err: Option<Error>)
      ensures |calls| <= |changedKeys|
      ensures forall j :: 0 <= j < |calls| ==>
        changedKeys[j] in scHandlers && calls[j] == ScCall(scHandlers[changedKeys[j]], changedKeys[j], info)
      ensures err.None? <==> forall j :: 0 <= j < |changedKeys| ==> changedKeys[j] in scHandlers
      ensures err.None? ==> |calls| == |changedKeys|
      ensures err.Some? ==> |calls| < |changedKeys| && changedKeys[|calls|] !in scHandlers
                            && err == Some(MissingKey(changedKeys[|calls|]))
    {
      calls := [];
      for i := 0 to |changedKeys|
        invariant |calls| == i
        invariant forall j :: 0 <= j < i ==>
          changedKeys[j] in scHandlers && calls[j] == ScCall(scHandlers[changedKeys[j]], changedKeys[j], info)
      {
        var key := changedKeys[i];
        if key !in scHandlers {
          return calls, Some(MissingKey(key));
        }
        calls := calls + [ScCall(scHandlers[key], key, info)];
      }
      err := None;
    }

    /**
     * add_fs_notification: append the callback to the list of the directory that
     * watches `fPath`; a path that does not exist is refused and nothing changes.
     */
    method AddFsNotification(fs: FileSystem, fPath: string, callback: Callback) returns (err: Option<Error>)
      requires Valid()
      modifies this`fsWatchedFiles
      ensures Valid()
      ensures WatchRoot(fs, fPath).Err? ==>
        err == Some(WatchRoot(fs, fPath).error) && fsWatchedFiles == old(fsWatchedFiles)
      ensures WatchRoot(fs, fPath).Ok? ==>
        err.None? && fsWatchedFiles == Register(old(fsWatchedFiles), WatchRoot(fs, fPath).value, callback)
    {
      var path := fs.realpath(fs.expanduser(fPath));
      if path !in fs.existing {
        return Some(PathNotFound(path));
      }
      if path !in fs.directories {
        path := Dirname(path);
      }
      RegisterKeepsCallbacks(fsWatchedFiles, path, callback);
      if path in fsWatchedFiles {
        fsWatchedFiles := fsWatchedFiles[path := fsWatchedFiles[path] + [callback]];
      } else {
        fsWatchedFiles := fsWatchedFiles[path := [callback]];
      }
      err := None;
    }

    /**
     * One path of add_fs_notifications: build its handler with the context
     * "FSEvent: <path>" and watch the path with it.
     */
    method AddFsEntry(fs: FileSystem, config: seq<(string, EventConfig)>, i: nat, ghost before: WatchIndex)
      returns (err: Option<Error>, ghost handler: Option<Handler>)
      requires Valid()
      requires i < |config|
      requires FsConfigured(handlerObjects, modules, fsWatchedFiles, before, fs, config, i)
      modifies this`fsWatchedFiles, this`handlerObjects
      ensures Valid()
      ensures CacheGrows(old(handlerObjects), handlerObjects)
      ensures err == EntryError(modules, FSEvents(fs), config[i].0, config[i].1)
      ensures FsConfigured(handlerObjects, modules, fsWatchedFiles, before, fs, config, if err.None? then i + 1 else i)
      ensures err.Some? ==> fsWatchedFiles == old(fsWatchedFiles)
      ensures CacheStep(modules, old(handlerObjects), handlerObjects, EntryClass(FSEvents(fs), config[i].0, config[i].1))
      ensures err.None? ==> && handler.Some? && WatchRoot(fs, config[i].0).Ok?
                            && Resolved(handlerObjects, modules, handler.value, config[i].0, config[i].1,
                                        FS_CONTEXT + config[i].0)
                            && fsWatchedFiles == Register(old(fsWatchedFiles), WatchRoot(fs, config[i].0).value,
                                                          UserCallback(handler.value))
    {
      var (path, entry) := config[i];
      ghost var cache := handlerObjects;
      var built := GetCallableForEvent(path, entry, FS_CONTEXT + path);
      FsConfiguredCache(cache, handlerObjects, modules, fsWatchedFiles, before, fs, config, i);
      if built.Err? {
        return Some(built.error), None;
      }
      handler := Some(built.value);
      ghost var index := fsWatchedFiles;
      err := AddFsNotification(fs, path, UserCallback(built.value));
      if err.None? {
        SucceedsStep(modules, FSEvents(fs), config, i);
        FsConfiguredStep(handlerObjects, modules, index, before, fs, config, i, built.value);
      }
    }

    /**
     * add_fs_notifications: for every configured path, build its handler with the
     * context "FSEvent: <path>" and watch the path with it, until an entry fails.
     */
    method AddFsNotifications(fs: FileSystem, config: seq<(string, EventConfig)>)
      returns (err: Option<Error>, ghost handlers: seq<Handler>)
      requires Valid()
      modifies this`fsWatchedFiles, this`handlerObjects
      ensures Valid()
      ensures CacheGrows(old(handlerObjects), handlerObjects)
      ensures err == SectionError(modules, FSEvents(fs), config)
      ensures FsConfigured(handlerObjects, modules, fsWatchedFiles, old(fsWatchedFiles), fs, config,
                           Processed(modules, FSEvents(fs), config))
      ensures |handlers| == Processed(modules, FSEvents(fs), config)
      ensures FsBuilt(handlerObjects, modules, fsWatchedFiles, old(fsWatchedFiles), fs, config, handlers)
      ensures handlerObjects.Keys
              == old(handlerObjects).Keys + ClassesAdded(modules, FSEvents(fs), config, Reached(modules, FSEvents(fs), config))
    {
      handlers := [];
      for i := 0 to |config|
        invariant Valid()
        invariant CacheGrows(old(handlerObjects), handlerObjects)
        invariant FsConfigured(handlerObjects, modules, fsWatchedFiles, old(fsWatchedFiles), fs, config, i)
        invariant |handlers| == i
        invariant FsBuilt(handlerObjects, modules, fsWatchedFiles, old(fsWatchedFiles), fs, config, handlers)
        invariant handlerObjects.Keys == old(handlerObjects).Keys + ClassesAdded(modules, FSEvents(fs), config, i)
      {
        ghost var cache := handlerObjects;
        ghost var index := fsWatchedFiles;
        ghost var handler;
        err, handler := AddFsEntry(fs, config, i, old(fsWatchedFiles));
        FsBuiltCache(cache, handlerObjects, modules, index, old(fsWatchedFiles), fs, config, handlers);
        ClassesAddedStep(modules, FSEvents(fs), config, i, old(handlerObjects).Keys, cache, handlerObjects);
        if err.Some? {
          StopsAt(modules, FSEvents(fs), config, i);
          return;
        }
        FsBuiltStep(handlerObjects, modules, index, old(fsWatchedFiles), fs, config, handlers, handler.value);
        handlers := handlers + [handler.value];
      }
      err := None;
      RunsThrough(modules, FSEvents(fs), config);
    }

    /**
     * fsevent_callback: for each event, every callback of every watched directory
     * that the event's directory starts with, in the order the index is read; a
     * restart check that fires ends the batch there.
     */
    method FsEventCallback(fs: FileSystem, order: seq<string>, eventCount: nat, paths: seq<string>, masks: seq<bv32>)
      returns (trace: seq<Invocation>, restart: Option<RestartReason>)
      requires eventCount <= |paths| && eventCount <= |masks|
      requires IsEnumeration(order, fsWatchedFiles.Keys)
      ensures Effects(trace, restart) == Execute(PlannedCalls(fsWatchedFiles, order, paths, masks, eventCount), fs.mtime)
    {
      trace := [];
      restart := None;
      ghost var lists := EventCallsList(fsWatchedFiles, order, paths, masks, eventCount);
      ghost var done: seq<Call> := [];
      var recursive := false;
      for i := 0 to eventCount
        invariant done == Flatten(lists[..i])
        invariant Execute(done, fs.mtime) == Effects(trace, None)
        invariant restart.None?
      {
        var path := Dirname(paths[i]);
        recursive := RecursiveFlag(masks[i], recursive);
        var roots := Matching(order, path);
        ghost var part;
        trace, restart, part := DispatchEvent(fs.mtime, fsWatchedFiles, roots, path, recursive, done, trace);
        assert lists[i] == EventCalls(fsWatchedFiles, roots, path, recursive);
        if restart.Some? {
          EventPrefixIsBatchPrefix(fsWatchedFiles, order, paths, masks, eventCount, i, part);
          ExecutePrefixRestarts(done + part, PlannedCalls(fsWatchedFiles, order, paths, masks, eventCount), fs.mtime);
          return;
        }
        FlattenSnoc(lists, i);
        done := done + part;
      }
      assert lists[..eventCount] == lists;
    }

    /**
     * add_conditional_restart: walk up from the resolved file name to the nearest
     * existing path, remember its mtime and watch it with a restart check.
     */
    method AddConditionalRestart(fs: FileSystem, fileName: string, reason: string) returns (err: Option<Error>)
      requires Valid()
      requires ReachesExisting(fs.existing, fs.realpath(fileName))
      modifies this`fsWatchedFiles
      ensures Valid()
      ensures var f := NearestExisting(fs.existing, fs.realpath(fileName));
        f !in fs.mtime ==> err == Some(StatFailed(f)) && fsWatchedFiles == old(fsWatchedFiles)
      ensures var f := NearestExisting(fs.existing, fs.realpath(fileName));
        f in fs.mtime && WatchRoot(fs, f).Err? ==>
          err == Some(WatchRoot(fs, f).error) && fsWatchedFiles == old(fsWatchedFiles)
      ensures var f := NearestExisting(fs.existing, fs.realpath(fileName));
        f in fs.mtime && WatchRoot(fs, f).Ok? ==>
          err.None?
          && fsWatchedFiles == Register(old(fsWatchedFiles), WatchRoot(fs, f).value, RestartCheck(f, fs.mtime[f], reason))
    {
      var f := fs.realpath(fileName);
      while f !in fs.existing
        invariant fsWatchedFiles == old(fsWatchedFiles)
        invariant ReachesExisting(fs.existing, f)
        invariant NearestExisting(fs.existing, f) == NearestExisting(fs.existing, fs.realpath(fileName))
        decreases |f|
      {
        DirnameShortens(f);
        f := Dirname(f);
      }
      if f !in fs.mtime {
        return Some(StatFailed(f));
      }
      err := AddFsNotification(fs, f, RestartCheck(f, fs.mtime[f], reason));
    }
  }
}
