# crankd event dispatch, modelled in Dafny

`crankd` (`bin/crankd.py`) is a macOS daemon that reads a configuration of
events (NSWorkspace notifications, SystemConfiguration keys, filesystem
paths) and runs a handler for each one: a shell command, a Python function,
or a method of a handler class. This project models its dispatch core:

- **Handler resolution** (`registry.dfy`, `daemon.dfy`):
  - `get_mod_func` splits a name at its last dot.
  - `get_callable_from_string` resolves a name against an abstract table of
    importable modules, which stands in for `__import__`.
  - `get_callable_for_event` picks a handler in the order command, then
    function, then method, and binds `context`, `key` and `config` into it.
  - `get_handler_object` keeps one instance per class name in the cache
    `HANDLER_OBJECTS`.
  - For `class` handlers, the workspace method name is `"on%s:"` with every
    `:` made `_`.
- **The watch index** `FS_WATCHED_FILES` (`fsdispatch.dfy`, `daemon.dfy`):
  - `add_fs_notification` resolves a path to the directory that watches it
    and appends the callback to that directory's list.
  - `realpath`, `expanduser`, `exists`, `isdir` and `stat` are oracles,
    gathered in `Paths.FileSystem`.
- **Dispatch** (`fsdispatch.dfy`, `daemon.dfy`):
  - `fsevent_callback` calls every callback of every watched root that is a
    string prefix of the event's directory, in list order.
  - Its `recursive` flag is what the code computes: the kernel-dropped bit
    alone.
  - `handle_sc_event` calls the handler of each changed key in turn.
  - `FsDispatch.PlannedCalls` and `FsDispatch.Execute` specify a batch
    independently of the loops. `Daemon.Crankd.FsEventCallback` is proved
    equal to them.
- **`do_shell`** (`shell.dfy`): the `child_env` built from the keyword
  arguments, and the three-way judgement of the return code.
- **Conditional restart** (`restart.dfy`, `daemon.dfy`):
  - `add_conditional_restart` walks up with `dirname` to an existing path and
    records its mtime.
  - `cond_restart` asks for a restart when that mtime has moved.
  - `restart` is an outcome (`Restart.RestartReason`): once it is set,
    nothing else in the batch runs, as after `os.execv`.

The three module-level dictionaries are the fields of one object,
`Daemon.Crankd`, and the functions that update them are its methods. Each
method is proved against a specification function or an explicit trace, and the properties of
those functions are lemmas. Python's dictionary iteration order is a
parameter: `order` is an enumeration of the keys. The order of configuration
sections is the order of the `config` sequence.

Two behaviours of the code are easy to misread, and the model follows the
code in both:

- The flag names suggest that any of the three dropped-event bits makes an
  event recursive, but the `else` at `bin/crankd.py:410-411` overwrites the
  earlier assignments, so only the kernel-dropped bit counts
  (`FsDispatch.RecursiveFlag`).
- `str.startswith` is a plain string prefix, so a watch on `/a` also fires
  for `/ab` (`FsDispatch.Matching`).

## Model

| member | source | states |
|---|---|---|
| Strings.LastIndexOf | bin/crankd.py:115 | `rindex('.')`: the position of the last occurrence, with no occurrence after it; none exactly when the character is absent (where Python raises ValueError) |
| Strings.Replace | bin/crankd.py:299 | `replace(':', '_')` on single characters: same length, every `:` becomes `_`, every other character stays |
| Strings.TopLevelName | bin/crankd.py:128 | the name before the first dot (what `__import__` returns): a dot-free prefix of the name, followed by a dot when shorter |
| Paths.Dirname | bin/crankd.py:398 | `os.path.dirname`: a prefix of the path, empty without a slash; otherwise the path cut at its last slash, with the slashes before that cut removed unless only slashes precede it |
| Paths.DirnameDetermined | bin/crankd.py:398 | any string that meets Dirname's contract is the dirname, so the contract fixes the value |
| Paths.DirnameShortens | bin/crankd.py:499-500 | dirname leaves a path unchanged or makes it strictly shorter, which is what ends the walk up |
| Registry.GetModFunc | bin/crankd.py:112-118 | with a dot, the two parts joined by "." give back the name and the second part has no dot; without one, the result is (name, "") |
| Registry.GetModFuncOfQualified | bin/crankd.py:112-118 | splitting `m + "." + f` with a dot-free `f` gives exactly (m, f), so the split is the one at the last dot |
| Registry.GetModFuncBothEmpty | bin/crankd.py:124-126 | both parts are empty exactly for "" and ".", the names refused before any import |
| Registry.GetCallableFromString | bin/crankd.py:121-136 | a resolved callable comes from the module named by the first part and has the attribute name (the eponymous one when there is no function part); every failure is EmptyModuleName or CannotResolve |
| Registry.GetCallableFromStringResolves | bin/crankd.py:121-136 | a name resolves if and only if its module part is non-empty, importable and holds the attribute |
| Registry.EponymousLookup | bin/crankd.py:130-133 | a name without a dot resolves to the attribute of the same name in the module of that name, or fails |
| Registry.QualifiedLookup | bin/crankd.py:124-133 | `m.f` resolves to attribute `f` of module `m` when both exist, and fails otherwise |
| Registry.ImportAsWritten | bin/crankd.py:128 | `__import__` as written returns the top-level package of the named module |
| Registry.GetCallableFromStringAsWritten | bin/crankd.py:121-136 | as written, the attribute is looked up in the top-level package of the module part |
| Registry.DottedModuleResolvesOnPackage | bin/crankd.py:128-133 | a function of `pkg.sub` named as `pkg.sub.f` is not found as written but is found by the corrected lookup |
| Registry.TopLevelOfQualified | bin/crankd.py:128 | the top-level name of `m.rest` with a dot-free `m` is `m` |
| Registry.AsWrittenAgreesOnUndottedModules | bin/crankd.py:124-133 | when the module part has no dot, the as-written and the corrected lookup give the same result |
| Registry.SelectHandler | bin/crankd.py:100-107 | command before function before method; fails with NoHandlerKind if and only if none of the three keys is present |
| Registry.ClassOnlyEntryRejected | bin/crankd.py:100-107 | an entry with only a "class" key is refused by get_callable_for_event |
| Registry.HandlerObject.constructor | bin/crankd.py:144 | a fresh instance of the named class, with its callable members |
| Registry.Instantiation | bin/crankd.py:143-147 | calling the resolved name gives an instance if and only if it names a class whose constructor returns without arguments (otherwise ConstructorRaised, before anything is cached) and that is not a BaseHandler subclass (for which the undefined `options` raises NameError); the instance has the class's methods |
| Registry.BindFunction | bin/crankd.py:103 | `partial()` of the resolved attribute succeeds if and only if it resolves and is callable, and binds the given arguments |
| Registry.PythonMethodName | bin/crankd.py:298-299 | "on" + event + "_" with every ':' of the event made '_': its length, its characters, no ':' left |
| Registry.PythonMethodNameOfPlainEvent | bin/crankd.py:298-299 | for an event without ':' the method is exactly "on<event>_" |
| Restart.DirnameIterateIsPrefix | bin/crankd.py:499-500 | every path met on the walk up is a prefix of the start |
| Restart.NearestExistingIsNearest | bin/crankd.py:498-500 | the watched file exists, is an ancestor-or-self of the resolved name, is reached by the walk, and no existing path on the walk comes before it |
| Restart.CondRestart | bin/crankd.py:503-508 | no restart if and only if stat succeeds with the recorded mtime; a changed mtime gives the caller's reason, a failed stat a CheckFailed reason |
| Restart.CondRestartAsWritten | bin/crankd.py:503-508 | as written, it raises if and only if stat fails, and restarts if and only if the mtime changed |
| Restart.DeletedFileRaisesAsWritten | bin/crankd.py:504-508 | once the file is gone, the code as written raises where the corrected check restarts |
| Restart.CondRestartAgreesWhenStatSucceeds | bin/crankd.py:504-506 | when stat succeeds, the two agree |
| FsDispatch.RecursiveFlag | bin/crankd.py:400-411 | the three tests, run as the loop runs them on the flag carried from the previous event, leave it exactly the kernel-dropped bit, whatever it carried in |
| FsDispatch.DroppedEventsNotRecursive | bin/crankd.py:400-411 | must-scan and user-dropped events, alone or together, give recursive=False; kernel-dropped, alone or with them, gives True |
| FsDispatch.Matching | bin/crankd.py:413 | the roots iterated are exactly the watched keys that are string prefixes of the directory, each once when the key order has no repetition |
| FsDispatch.RootCallsMembership | bin/crankd.py:415-416 | the calls for one root are exactly its callbacks, each with that root, the event's path and its flag |
| FsDispatch.EventCallsMembership | bin/crankd.py:413-416 | the calls for one event are exactly the callbacks of the matching roots, with the event's path and flag |
| FsDispatch.PlannedCallsMembership | bin/crankd.py:397-416 | a call is planned for a batch if and only if some event's directory starts with its root, it carries that event's dirname and flag, and its callback is registered under that root |
| FsDispatch.EventAtMembership | bin/crankd.py:398-416 | the same characterisation for the calls of any one event of the batch |
| FsDispatch.EventCallsForRoot | bin/crankd.py:413-416 | for one event, the calls made for a root are its whole callback list, once and in list order, if the root matches, and none otherwise |
| FsDispatch.ExecuteStopsAtRestart | bin/crankd.py:513-516 | once a restart is requested, later calls change nothing (execv does not return) |
| FsDispatch.ExecuteRestartsIff | bin/crankd.py:503-508 | a batch ends in a restart if and only if one of its restart checks finds its file changed or unreadable |
| FsDispatch.ExecuteWithoutRestart | bin/crankd.py:413-416 | with the corrected call and handlers that return: without a restart, every configured handler among the calls is called, in order |
| FsDispatch.WatchRoot | bin/crankd.py:360-365 | fails with PathNotFound exactly when the resolved path does not exist; otherwise the path itself for a directory, its dirname for a file |
| FsDispatch.Register | bin/crankd.py:367-370 | the callback is appended to the root's list, or starts a new one; the keys gain the root; every other root is unchanged |
| FsDispatch.RegisterKeepsCallbacks | bin/crankd.py:367-370 | lists stay non-empty, earlier callbacks keep their places, and the new callback is in the root's list |
| FsDispatch.RegisteredCallbackFires | bin/crankd.py:413-416 | a registered callback is planned, with the event's directory and flag, for every event whose directory starts with its root |
| FsDispatch.FileEventReachesItsRoot | bin/crankd.py:364-365 | an event reported on a watched file that is not a directory calls the callback registered for it, under the file's dirname |
| FsDispatch.ExecuteAsWritten | bin/crankd.py:413-416 | as written, a batch ends by a restart or by an exception, never both, and no "command" handler is ever invoked (restart checks use the corrected CondRestart, keeping the line-416 finding apart from the 504-508 one) |
| FsDispatch.ExecuteAsWrittenStopsAtRaise | bin/crankd.py:413-416 | once an exception leaves fsevent_callback, no later call of the batch does anything |
| FsDispatch.AsWrittenAgreesWithoutCommands | bin/crankd.py:413-416 | a batch without "command" handlers has the same effects as written and corrected |
| FsDispatch.CommandHandlerEndsBatchAsWritten | bin/crankd.py:413-416 | as written, the first "command" handler a batch reaches raises TypeError, and neither it nor any later call runs; the corrected batch invokes it |
| FsDispatch.ConditionalRestartFires | bin/crankd.py:503-510 | once a restart check is registered, any event under its root ends the batch in a restart when the file changed or cannot be read |
| Shell.ChildEnvEntry | bin/crankd.py:475-482 | a key is in child_env if and only if it is "context" or some argument sets it; its value is that of the last argument to set it, or the context |
| Shell.PlainArgumentsStringified | bin/crankd.py:475-482 | without mapping arguments, "context" keeps the context, every plain argument appears as its str() under its name, and a callable argument adds no key |
| Shell.ClassifyReturnCode | bin/crankd.py:486-491 | success if and only if rc is 0, killed by signal if and only if rc is negative, an error if and only if rc is positive |
| Shell.ClassifyReturnCodeRoundTrip | bin/crankd.py:486-491 | the signal number or the error code gives back the return code |
| Shell.ClassifyCall | bin/crankd.py:484-493 | a launch failure is a logged LaunchError, and a return code is judged as above |
| Shell.ClassifyCallAsWritten | bin/crankd.py:492-493 | as written, a launch failure ends in the TypeError of the log message |
| Shell.LaunchFailureEscapes | bin/crankd.py:492-493 | the as-written and the corrected handler differ exactly when the command cannot be launched |
| Shell.DoShell | bin/crankd.py:471-493 | the environment built by the loop is ChildEnv of the arguments, and the outcome is the judgement of running the command with it |
| Daemon.ResolutionError | bin/crankd.py:100-107 | an entry without a handler key fails with NoHandlerKind; a command entry never fails |
| Daemon.ResolvedStable | bin/crankd.py:143-150 | a resolved handler stays valid while the cache only grows |
| Daemon.RegisterGrows | bin/crankd.py:367-370 | registering never drops a root or a callback |
| Daemon.DispatchRoot | bin/crankd.py:415-416 | the calls made for one root are a prefix of its planned calls, all of them unless a restart check fired, and the effects are those of executing them |
| Daemon.DispatchEvent | bin/crankd.py:413-416 | the same for all the matching roots of one event |
| Daemon.Crankd.constructor | bin/crankd.py:68-70 | the three dictionaries start empty |
| Daemon.Crankd.GetHandlerObject | bin/crankd.py:139-150 | a cached class returns its instance and constructs nothing; a new class is instantiated once and cached; a failure leaves the cache unchanged; otherwise exactly the class's key is added and other entries are unchanged |
| Daemon.Crankd.GetCallableForEvent | bin/crankd.py:81-109 | fails exactly with ResolutionError; otherwise the handler is the command, function or method chosen in priority order, with context, key and config bound; the cache gains exactly the method entry's class when it was missing and can be instantiated, and is otherwise unchanged |
| Daemon.Crankd.WorkspaceObserver | bin/crankd.py:294-313 | a class entry registers the shared instance under "on<event>:" and fails if it lacks "on<event>_"; any other entry registers a handler named "NSWorkspace Notification <event>"; the cache gains exactly the entry's class (its `class` or its method's) when missing and instantiable, and nothing else |
| Daemon.ClassesAddedStep | bin/crankd.py:143-148 | one entry's cache step adds to the cache keys exactly the class that entry instantiates, if any |
| Daemon.Crankd.AddWorkspaceNotifications | bin/crankd.py:275-315 | one observer per entry, in order, until the first failing entry, whose error is returned; the cache keys become the old ones plus exactly the classes instantiated by the entries reached |
| Daemon.Crankd.AddScEntry | bin/crankd.py:333-334 | one key: its error, or its handler installed with the context "SystemConfiguration: <key>"; the cache gains exactly the key's method class when missing and instantiable |
| Daemon.Crankd.AddScNotifications | bin/crankd.py:318-337 | every key up to the first failure gets its handler; keys not among those processed keep theirs; the error is that of the first failing entry; the cache keys become the old ones plus exactly the classes instantiated by the entries reached |
| Daemon.Crankd.HandleScEvent | bin/crankd.py:153-156 | the handler of each changed key is called in order with the key and the info; a key without a handler stops the loop with KeyError |
| Daemon.Crankd.AddFsNotification | bin/crankd.py:358-370 | a missing path is refused and changes nothing; otherwise the index becomes Register of the watch root |
| Daemon.Crankd.AddFsEntry | bin/crankd.py:355 | one path: on failure its error and the index unchanged; on success the index is exactly the old one with the built handler appended under the path's watch root; the cache gains exactly the entry's method class when missing and instantiable |
| Daemon.Crankd.AddFsNotifications | bin/crankd.py:353-355 | the error is that of the first failing entry, and the index is exactly the old one with the handler built for each path before it appended, in order, under the path's watch root; the cache keys become the old ones plus exactly the classes instantiated by the entries reached |
| Daemon.InstalledLists | bin/crankd.py:353-370 | registering a section appends to each directory's list exactly the callbacks of the paths it watches, in configuration order, and leaves every other directory's list as it was |
| Daemon.Crankd.FsEventCallback | bin/crankd.py:395-416 | with the corrected call and handlers that return, the handlers called and the restart requested are exactly those of executing the planned calls of the batch in order |
| Daemon.Crankd.AddConditionalRestart | bin/crankd.py:496-510 | the nearest existing path is watched with a restart check carrying its mtime; a failed stat or a missing path changes nothing |

## Left out

- The Cocoa, FSEvents and SystemConfiguration bindings are foreign calls and
  are not modelled: the notification centre, `get_sc_store`,
  `start_fs_events`, the run loop and `timer_callback`. An observer is a
  value (`Daemon.Observer`) rather than a registration, and
  `NotificationHandler.onNotification_` delivery is not modelled.
- `main`, `process_commandline`, `load_config`, `list_events`,
  `configure_logging` and all logging are command-line handling, file I/O
  and output.
- `subprocess.call`, `os.execv` and `signal.signal` are process I/O.
  `subprocess.call` is the `run` parameter of `Shell.DoShell`, and a restart
  is an outcome.
- The real filesystem and `__import__` are oracles (`Paths.FileSystem`,
  `Registry.ModuleTable`).
- Attributes are modelled coarsely:
  - A function attribute used as a class is NotInstantiable.
  - A class's constructor either returns or raises (`constructs`), whatever the
    reason it raises; the exception is ConstructorRaised.
  - A non-callable instance attribute counts as a missing method.
- The `logger` keyword argument bound into every handler is left out of
  `Registry.BoundArgs`, as are the `stream_ref`, `full_path` and `ids`
  arguments of fsevent_callback.
- mtimes are integers.
- Argument binding at call time is not modelled, apart from the clash of the
  root passed positionally at `bin/crankd.py:416` with the `context` keyword
  that a `do_shell` partial holds, which is listed under Findings.
- Daemon.Crankd.FsEventCallback: handlers are taken to return. In the
  source, a function or method handler that raises ends the batch, and the
  calls after it, restart checks included, are not made. The model carries on
  with the batch. It also follows the corrected call for "command" handlers;
  `FsDispatch.ExecuteAsWritten` is the batch as written.
- Daemon.Crankd.HandleScEvent: handlers are taken to return. In the source,
  a handler that raises ends the loop over `changed_keys`, and the later keys'
  handlers are not called.
- Dictionary iteration order is the `order` parameter of
  `Daemon.Crankd.FsEventCallback`, and the `config` sequence order for the
  sections.
- Daemon.Crankd.AddWorkspaceNotifications: `sys.exit(1)` after a missing
  method, and an exception escaping, are both the returned error.
- Daemon.Crankd.AddScNotifications: `sys.exit(1)` after an AttributeError,
  and any other exception escaping, are both the returned error.
- Daemon.Crankd.AddConditionalRestart requires that the walk up reaches an
  existing path. Without one, the loop at `bin/crankd.py:499-500` never ends.
- Shell.DoShell takes the context as a string. The default `context=None`,
  which would put a None value into child_env, is not modelled.

## Findings

| source | as written | input that shows it | evidently intended | confidence | as-written member | corrected member |
|---|---|---|---|---|---|---|
| bin/crankd.py:128-133 | `__import__(mod_name)` returns the top-level package, and the attribute is looked up there | function "pkg.sub.f" where `f` is defined in `pkg.sub` but not in `pkg` | look the attribute up in the module named `pkg.sub` | high, not executed | Registry.GetCallableFromStringAsWritten | Registry.GetCallableFromString |
| bin/crankd.py:504-508 | `except (IOError, RuntimeError)` does not catch the OSError that `os.stat` raises in Python 2 | the watched file is deleted after registration | a failed stat requests a restart | high, not executed | Restart.CondRestartAsWritten | Restart.CondRestart |
| bin/crankd.py:416 | `j(i, path=path, recursive=recursive)` passes the root positionally, and for a "command" handler, a `partial(do_shell, command, context=...)`, it fills `context` a second time, so the call raises TypeError and leaves fsevent_callback | any event under a root that watches a "command" handler | call the handler, then the rest of the batch | high, not executed | FsDispatch.ExecuteAsWritten | FsDispatch.Execute |
| bin/crankd.py:492-493 | `"...%s:" % (command, exc)` has one `%s` for two values and raises TypeError inside the handler | a command that cannot be launched (OSError from `call`) | log the failure and return | high, not executed | Shell.ClassifyCallAsWritten | Shell.ClassifyCall |

The lemmas that exhibit each discrepancy are
`Registry.DottedModuleResolvesOnPackage`, `Restart.DeletedFileRaisesAsWritten`,
`FsDispatch.CommandHandlerEndsBatchAsWritten` and `Shell.LaunchFailureEscapes`.
The rest of the model uses the corrected members.
