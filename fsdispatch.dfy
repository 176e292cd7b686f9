/**
 * What fsevent_callback does with one batch of FSEvents: which callbacks it calls, in
 * which order, with which arguments, and where a restart cuts the batch short.
 */
module FsDispatch {
  import opened Outcomes
  import opened Paths
  import opened Registry
  import opened Restart

  /** The FSEventStreamEventFlags bits that fsevent_callback tests (FSEvents.h). */
  const MUST_SCAN_SUB_DIRS: bv32 := 0x0000_0001
  const USER_DROPPED: bv32 := 0x0000_0002
  const KERNEL_DROPPED: bv32 := 0x0000_0004

  /** A callback in the watch index: a configured handler, or the check of a conditional restart. */
  datatype Callback =
    | UserCallback(handler: Handler)
    | RestartCheck(file: string, baseline: int, reason: string)

  /** FS_WATCHED_FILES: directory root to the callbacks registered on it, in registration order. */
  type WatchIndex = map<string, seq<Callback>>

  /** One call `callback(root, path=path, recursive=recursive)` that fsevent_callback makes. */
  datatype Call = Call(root: string, callback: Callback, path: string, recursive: bool)

  /** A configured handler being called: what the dispatch shows to the outside. */
  datatype Invocation = Invocation(root: string, handler: Handler, path: string, recursive: bool)

  /** The handlers called so far, and the restart requested, if any. */
  datatype Effects = Effects(trace: seq<Invocation>, restart: Option<RestartReason>)

  predicate KernelDropped(mask: bv32) {
    mask & KERNEL_DROPPED != 0
  }

  /**
   * The three flag tests of one event, as bin/crankd.py:400-411 makes them, starting
   * from the value `recursive` carried in from the previous event. The last test
   * assigns in both branches, so only the kernel-dropped bit counts and nothing
   * carries over.
   */
  method RecursiveFlag(mask: bv32, carried: bool) returns (recursive: bool)
    ensures recursive == KernelDropped(mask)
  {
    recursive := carried;
    if mask & MUST_SCAN_SUB_DIRS != 0 {
      recursive := true;
    }
    if mask & USER_DROPPED != 0 {
      recursive := true;
    }
    if mask & KERNEL_DROPPED != 0 {
      recursive := true;
    } else {
      recursive := false;
    }
  }

  /** A must-scan or user-dropped event alone is dispatched with recursive=False. */
  lemma DroppedEventsNotRecursive()
    ensures !KernelDropped(MUST_SCAN_SUB_DIRS)
    ensures !KernelDropped(USER_DROPPED)
    ensures !KernelDropped(MUST_SCAN_SUB_DIRS | USER_DROPPED)
    ensures KernelDropped(KERNEL_DROPPED)
    ensures KernelDropped(MUST_SCAN_SUB_DIRS | USER_DROPPED | KERNEL_DROPPED)
  {
  }

  predicate NoDuplicates(s: seq<string>) {
    forall i, j :: 0 <= i < j < |s| ==> s[i] != s[j]
  }

  /** `order` lists the keys of the index, each once: how a dictionary iterates. */
  predicate IsEnumeration(order: seq<string>, keys: set<string>) {
    && NoDuplicates(order)
    && (forall k :: k in order ==> k in keys)
    && (forall k :: k in keys ==> k in order)
  }

  /** `[k for k in FS_WATCHED_FILES if path.startswith(k)]`, the dictionary read in `order`. */
  function Matching(order: seq<string>, path: string): (roots: seq<string>)
    ensures forall k :: k in roots <==> k in order && k <= path
    ensures NoDuplicates(order) ==> NoDuplicates(roots)
  {
    if order == [] then []
    else
      var last := order[|order| - 1];
      var init := order[..|order| - 1];
      assert order == init + [last];
      assert NoDuplicates(order) ==> NoDuplicates(init) && last !in init;
      Matching(init, path) + (if last <= path then [last] else [])
  }

  /** The calls for the callbacks of one root, in list order. */
  function RootCalls(root: string, callbacks: seq<Callback>, path: string, recursive: bool): seq<Call> {
    seq(|callbacks|, j requires 0 <= j < |callbacks| => Call(root, callbacks[j], path, recursive))
  }

  /** The calls for one event: every callback of every root in `roots`, root by root. */
  function EventCalls(index: WatchIndex, roots: seq<string>, path: string, recursive: bool): seq<Call>
    requires forall k :: k in roots ==> k in index
  {
    if roots == [] then []
    else
      var last := roots[|roots| - 1];
      EventCalls(index, roots[..|roots| - 1], path, recursive) + RootCalls(last, index[last], path, recursive)
  }

  /** The calls event `i` leads to: every callback of every root its directory starts with. */
  function EventCallsAt(index: WatchIndex, order: seq<string>, paths: seq<string>, masks: seq<bv32>, i: nat)
    : seq<Call>
    requires i < |paths| && i < |masks|
    requires forall k :: k in order ==> k in index
  {
    var path := Dirname(paths[i]);
    EventCalls(index, Matching(order, path), path, KernelDropped(masks[i]))
  }

  /** The calls of the first `n` events, event by event. */
  function EventCallsList(index: WatchIndex, order: seq<string>, paths: seq<string>, masks: seq<bv32>, n: nat)
    : (lists: seq<seq<Call>>)
    requires n <= |paths| && n <= |masks|
    requires forall k :: k in order ==> k in index
    ensures |lists| == n
    ensures forall i :: 0 <= i < n ==> lists[i] == EventCallsAt(index, order, paths, masks, i)
  {
    seq(n, i requires 0 <= i < n => EventCallsAt(index, order, paths, masks, i))
  }

  /** The lists one after the other. */
  function Flatten(lists: seq<seq<Call>>): seq<Call> {
    if lists == [] then [] else Flatten(lists[..|lists| - 1]) + lists[|lists| - 1]
  }

  /** Every call the first `n` events of a batch lead to, before any of them is made. */
  function PlannedCalls(index: WatchIndex, order: seq<string>, paths: seq<string>, masks: seq<bv32>, n: nat)
    : seq<Call>
    requires n <= |paths| && n <= |masks|
    requires forall k :: k in order ==> k in index
  {
    Flatten(EventCallsList(index, order, paths, masks, n))
  }

  /**
   * Making one call. A configured handler is recorded; a restart check may request a
   * restart (os.execv: nothing runs after it, so every later call does nothing).
   */
  function Step(effects: Effects, call: Call, mtime: map<string, int>): Effects {
    if effects.restart.Some? then effects
    else
      match call.callback
      case UserCallback(h) => Effects(effects.trace + [Invocation(call.root, h, call.path, call.recursive)], None)
      case RestartCheck(file, baseline, reason) => Effects(effects.trace, CondRestart(mtime, file, baseline, reason))
  }

  /** Making the calls in order, against the modification times of the moment. */
  function Execute(calls: seq<Call>, mtime: map<string, int>): Effects {
    if calls == [] then Effects([], None)
    else Step(Execute(calls[..|calls| - 1], mtime), calls[|calls| - 1], mtime)
  }

  /** The configured handlers among the calls, as the invocations they become. */
  function UserInvocations(calls: seq<Call>): seq<Invocation> {
    if calls == [] then []
    else
      var last := calls[|calls| - 1];
      UserInvocations(calls[..|calls| - 1])
        + match last.callback
          case UserCallback(h) => [Invocation(last.root, h, last.path, last.recursive)]
          case RestartCheck(_, _, _) => []
  }

  /** Whether a call is a restart check that finds its file changed or unreadable. */
  predicate Triggers(call: Call, mtime: map<string, int>) {
    call.callback.RestartCheck?
    && CondRestart(mtime, call.callback.file, call.callback.baseline, call.callback.reason).Some?
  }

  lemma {:induction false} RootCallsMembership(root: string, callbacks: seq<Callback>, path: string,
                                               recursive: bool, c: Call)
    ensures c in RootCalls(root, callbacks, path, recursive)
      <==> c.root == root && c.path == path && c.recursive == recursive && c.callback in callbacks
  {
    var calls := RootCalls(root, callbacks, path, recursive);
    if c.root == root && c.path == path && c.recursive == recursive && c.callback in callbacks {
      var j :| 0 <= j < |callbacks| && callbacks[j] == c.callback;
      assert calls[j] == c;
    }
  }

  lemma {:induction false} EventCallsMembership(index: WatchIndex, roots: seq<string>, path: string,
                                                recursive: bool, c: Call)
    requires forall k :: k in roots ==> k in index
    ensures c in EventCalls(index, roots, path, recursive)
      <==> c.path == path && c.recursive == recursive && c.root in roots && c.callback in index[c.root]
  {
    if roots != [] {
      var last := roots[|roots| - 1];
      assert roots == roots[..|roots| - 1] + [last];
      EventCallsMembership(index, roots[..|roots| - 1], path, recursive, c);
      RootCallsMembership(last, index[last], path, recursive, c);
    }
  }

  /** Whether a call carries the arguments of event `i`: its directory and its recursive flag. */
  predicate FromEvent(c: Call, paths: seq<string>, masks: seq<bv32>, i: int) {
    0 <= i < |paths| && 0 <= i < |masks| && c.path == Dirname(paths[i]) && c.recursive == KernelDropped(masks[i])
  }

  /** A call is among the flattened calls exactly when it is in one of the lists. */
  lemma {:induction false} FlattenMembership(lists: seq<seq<Call>>, c: Call)
    ensures c in Flatten(lists) <==> exists i :: 0 <= i < |lists| && c in lists[i]
  {
    if lists != [] {
      var init := lists[..|lists| - 1];
      FlattenMembership(init, c);
      if exists i :: 0 <= i < |lists| && c in lists[i] {
        var i :| 0 <= i < |lists| && c in lists[i];
        if i < |init| {
          assert c in init[i];
        }
      }
    }
  }

  /** Flattening a prefix of the lists gives a prefix of the calls. */
  lemma {:induction false} FlattenPrefix(lists: seq<seq<Call>>, m: nat)
    requires m <= |lists|
    ensures Flatten(lists[..m]) <= Flatten(lists)
    decreases |lists|
  {
    if m < |lists| {
      var init := lists[..|lists| - 1];
      assert lists[..m] == init[..m];
      FlattenPrefix(init, m);
      PrefixOfAppend(Flatten(init[..m]), Flatten(init), lists[|lists| - 1]);
    } else {
      assert lists[..m] == lists;
    }
  }

  /** Flattening one more list appends it. */
  lemma FlattenSnoc(lists: seq<seq<Call>>, i: nat)
    requires i < |lists|
    ensures Flatten(lists[..i + 1]) == Flatten(lists[..i]) + lists[i]
  {
    assert lists[..i + 1][..i] == lists[..i];
  }

  /**
   * The dispatch set: a call is made exactly for a callback of a watched root `k`
   * and an event `i` such that dirname(paths[i]) starts with `k` (a plain string
   * prefix), with path=dirname(paths[i]) and recursive from that event's mask.
   */
  lemma PlannedCallsMembership(index: WatchIndex, order: seq<string>, paths: seq<string>,
                               masks: seq<bv32>, n: nat, c: Call)
    requires n <= |paths| && n <= |masks|
    requires IsEnumeration(order, index.Keys)
    ensures c in PlannedCalls(index, order, paths, masks, n)
      <==> (exists i :: 0 <= i < n && FromEvent(c, paths, masks, i))
           && c.root in index && c.root <= c.path && c.callback in index[c.root]
  {
    var lists := EventCallsList(index, order, paths, masks, n);
    FlattenMembership(lists, c);
    forall i | 0 <= i < n
      ensures c in lists[i]
        <==> FromEvent(c, paths, masks, i) && c.root in index && c.root <= c.path && c.callback in index[c.root]
    {
      EventAtMembership(index, order, paths, masks, i, c);
    }
  }

  /** The calls made for event `i` alone. */
  lemma EventAtMembership(index: WatchIndex, order: seq<string>, paths: seq<string>,
                              masks: seq<bv32>, i: nat, c: Call)
    requires i < |paths| && i < |masks|
    requires IsEnumeration(order, index.Keys)
    ensures c in EventCallsAt(index, order, paths, masks, i)
      <==> FromEvent(c, paths, masks, i) && c.root in index && c.root <= c.path && c.callback in index[c.root]
  {
    var path := Dirname(paths[i]);
    EventCallsMembership(index, Matching(order, path), path, KernelDropped(masks[i]), c);
  }

  /** The calls among `calls` made for root `k`. */
  function CallsFor(calls: seq<Call>, k: string): seq<Call> {
    if calls == [] then []
    else CallsFor(calls[..|calls| - 1], k) + (if calls[|calls| - 1].root == k then [calls[|calls| - 1]] else [])
  }

  lemma {:induction false} CallsForAppend(a: seq<Call>, b: seq<Call>, k: string)
    ensures CallsFor(a + b, k) == CallsFor(a, k) + CallsFor(b, k)
  {
    if b != [] {
      var init := b[..|b| - 1];
      assert (a + b)[..|a + b| - 1] == a + init;
      assert (a + b)[|a + b| - 1] == b[|b| - 1];
      CallsForAppend(a, init, k);
    } else {
      assert a + b == a;
    }
  }

  lemma {:induction false} CallsForRootCalls(root: string, callbacks: seq<Callback>, path: string,
                                             recursive: bool, k: string)
    ensures CallsFor(RootCalls(root, callbacks, path, recursive), k)
      == if root == k then RootCalls(root, callbacks, path, recursive) else []
  {
    if callbacks != [] {
      var init := callbacks[..|callbacks| - 1];
      assert RootCalls(root, callbacks, path, recursive)[..|callbacks| - 1] == RootCalls(root, init, path, recursive);
      CallsForRootCalls(root, init, path, recursive, k);
      if root == k {
        assert RootCalls(root, callbacks, path, recursive)
          == RootCalls(root, init, path, recursive) + [Call(root, callbacks[|callbacks| - 1], path, recursive)];
      }
    }
  }

  lemma {:induction false} CallsForEventCalls(index: WatchIndex, roots: seq<string>, path: string,
                                              recursive: bool, k: string)
    requires forall r :: r in roots ==> r in index
    requires NoDuplicates(roots)
    ensures CallsFor(EventCalls(index, roots, path, recursive), k)
      == if k in roots then RootCalls(k, index[k], path, recursive) else []
  {
    if roots != [] {
      var last := roots[|roots| - 1];
      var init := roots[..|roots| - 1];
      assert roots == init + [last];
      CallsForAppend(EventCalls(index, init, path, recursive), RootCalls(last, index[last], path, recursive), k);
      CallsForEventCalls(index, init, path, recursive, k);
      CallsForRootCalls(last, index[last], path, recursive, k);
    }
  }

  /**
   * For one event, the calls made for a root are its whole callback list, once and in
   * list order, if the root is a prefix of the event's directory, and none otherwise.
   */
  lemma EventCallsForRoot(index: WatchIndex, order: seq<string>, path: string, recursive: bool, k: string)
    requires IsEnumeration(order, index.Keys)
    ensures CallsFor(EventCalls(index, Matching(order, path), path, recursive), k)
      == if k in index && k <= path then RootCalls(k, index[k], path, recursive) else []
  {
    CallsForEventCalls(index, Matching(order, path), path, recursive, k);
  }

  /** Once a restart is requested, further calls change nothing. */
  lemma {:induction false} ExecuteStopsAtRestart(a: seq<Call>, b: seq<Call>, mtime: map<string, int>)
    requires Execute(a, mtime).restart.Some?
    ensures Execute(a + b, mtime) == Execute(a, mtime)
  {
    if b != [] {
      var init := b[..|b| - 1];
      assert (a + b)[..|a + b| - 1] == a + init;
      ExecuteStopsAtRestart(a, init, mtime);
    } else {
      assert a + b == a;
    }
  }

  /** A batch ends in a restart exactly when one of its restart checks fires. */
  lemma {:induction false} ExecuteRestartsIff(calls: seq<Call>, mtime: map<string, int>)
    ensures Execute(calls, mtime).restart.Some? <==> exists j :: 0 <= j < |calls| && Triggers(calls[j], mtime)
  {
    if calls != [] {
      var init := calls[..|calls| - 1];
      ExecuteRestartsIff(init, mtime);
      assert forall j :: 0 <= j < |init| ==> init[j] == calls[j];
      if exists j :: 0 <= j < |calls| && Triggers(calls[j], mtime) {
        var j :| 0 <= j < |calls| && Triggers(calls[j], mtime);
        if j < |init| {
          assert Triggers(init[j], mtime);
        }
      }
    }
  }

  /** Without a restart, every configured handler among the calls is called, in order. */
  lemma {:induction false} ExecuteWithoutRestart(calls: seq<Call>, mtime: map<string, int>)
    requires Execute(calls, mtime).restart.None?
    ensures Execute(calls, mtime).trace == UserInvocations(calls)
  {
    if calls != [] {
      ExecuteWithoutRestart(calls[..|calls| - 1], mtime);
    }
  }

  /**
   * The effects of a batch as bin/crankd.py:416 makes its calls: besides a restart, an
   * exception can leave fsevent_callback, and then nothing after it in the batch runs.
   */
  datatype EffectsAsWritten = EffectsAsWritten(trace: seq<Invocation>, restart: Option<RestartReason>,
                                               raised: Option<Error>)

  /** A call of a configured "command" handler. */
  predicate CallsCommand(call: Call) {
    call.callback.UserCallback? && call.callback.handler.ShellCommand?
  }

  /**
   * Making one call as written. A "command" handler is a partial of do_shell that holds
   * `context` as a keyword, and the root passed positionally fills the same parameter,
   * so the call raises TypeError before do_shell runs. Other calls are as in Step, so a
   * conditional-restart check goes through the corrected CondRestart: for a watched file
   * that is gone this model restarts where the code as written raises OSError (the
   * finding at bin/crankd.py:504-508); the two findings are kept apart.
   */
  function StepAsWritten(effects: EffectsAsWritten, call: Call, mtime: map<string, int>): EffectsAsWritten {
    if effects.restart.Some? || effects.raised.Some? then effects
    else if CallsCommand(call) then EffectsAsWritten(effects.trace, None, Some(ArgumentClash("context")))
    else
      var e := Step(Effects(effects.trace, None), call, mtime);
      EffectsAsWritten(e.trace, e.restart, None)
  }

  /** Making the calls in order as written. */
  function ExecuteAsWritten(calls: seq<Call>, mtime: map<string, int>): (r: EffectsAsWritten)
    ensures r.restart.None? || r.raised.None?
    ensures forall v :: v in r.trace ==> !v.handler.ShellCommand?
  {
    if calls == [] then EffectsAsWritten([], None, None)
    else StepAsWritten(ExecuteAsWritten(calls[..|calls| - 1], mtime), calls[|calls| - 1], mtime)
  }

  /** Once an exception has left fsevent_callback, later calls change nothing. */
  lemma {:induction false} ExecuteAsWrittenStopsAtRaise(a: seq<Call>, b: seq<Call>, mtime: map<string, int>)
    requires ExecuteAsWritten(a, mtime).raised.Some?
    ensures ExecuteAsWritten(a + b, mtime) == ExecuteAsWritten(a, mtime)
  {
    if b != [] {
      var init := b[..|b| - 1];
      assert (a + b)[..|a + b| - 1] == a + init;
      ExecuteAsWrittenStopsAtRaise(a, init, mtime);
    } else {
      assert a + b == a;
    }
  }

  /** Without a "command" handler among the calls, the batch as written is the corrected one. */
  lemma {:induction false} AsWrittenAgreesWithoutCommands(calls: seq<Call>, mtime: map<string, int>)
    requires forall j :: 0 <= j < |calls| ==> !CallsCommand(calls[j])
    ensures ExecuteAsWritten(calls, mtime)
            == EffectsAsWritten(Execute(calls, mtime).trace, Execute(calls, mtime).restart, None)
  {
    if calls != [] {
      AsWrittenAgreesWithoutCommands(calls[..|calls| - 1], mtime);
    }
  }

  /**
   * As written, the first "command" handler that a batch reaches raises and ends it:
   * neither it nor anything after it runs, restart checks included. The corrected
   * batch calls it and goes on.
   */
  lemma CommandHandlerEndsBatchAsWritten(a: seq<Call>, c: Call, b: seq<Call>, mtime: map<string, int>)
    requires forall j :: 0 <= j < |a| ==> !CallsCommand(a[j])
    requires CallsCommand(c) && Execute(a, mtime).restart.None?
    ensures ExecuteAsWritten(a + [c] + b, mtime)
            == EffectsAsWritten(Execute(a, mtime).trace, None, Some(ArgumentClash("context")))
    ensures Execute(a + [c], mtime).trace
            == Execute(a, mtime).trace + [Invocation(c.root, c.callback.handler, c.path, c.recursive)]
  {
    AsWrittenAgreesWithoutCommands(a, mtime);
    assert (a + [c])[..|a|] == a;
    ExecuteAsWrittenStopsAtRaise(a + [c], b, mtime);
  }

  /**
   * The directory add_fs_notification watches for `fPath`: the resolved path itself
   * when it is a directory, its dirname otherwise; an error when it does not exist.
   */
  function WatchRoot(fs: FileSystem, fPath: string): (r: Result<string>)
    ensures var p := fs.realpath(fs.expanduser(fPath));
      && (r.Err? <==> p !in fs.existing)
      && (r.Err? ==> r.error == PathNotFound(p))
      && (r.Ok? ==> r.value <= p)
      && (r.Ok? && p in fs.directories ==> r.value == p)
      && (r.Ok? && p !in fs.directories ==> r.value == Dirname(p))
  {
    var p := fs.realpath(fs.expanduser(fPath));
    if p !in fs.existing then Err(PathNotFound(p))
    else if p in fs.directories then Ok(p)
    else Ok(Dirname(p))
  }

  /** The index after `callback` is appended to the list of `root` (a new list if there was none). */
  function Register(index: WatchIndex, root: string, callback: Callback): (r: WatchIndex)
    ensures r.Keys == index.Keys + {root}
    ensures root in index ==> r[root] == index[root] + [callback]
    ensures root !in index ==> r[root] == [callback]
    ensures forall k :: k in index && k != root ==> r[k] == index[k]
  {
    if root in index then index[root := index[root] + [callback]] else index[root := [callback]]
  }

  /** Registering keeps every list non-empty and every earlier callback, in place. */
  lemma RegisterKeepsCallbacks(index: WatchIndex, root: string, callback: Callback)
    requires forall k :: k in index ==> index[k] != []
    ensures forall k :: k in Register(index, root, callback) ==> Register(index, root, callback)[k] != []
    ensures forall k :: k in index ==> index[k] <= Register(index, root, callback)[k]
    ensures callback in Register(index, root, callback)[root]
  {
  }

  /**
   * A registered callback is called, with that event's directory and flag, for
   * every event whose directory starts with its root.
   */
  lemma RegisteredCallbackFires(index: WatchIndex, order: seq<string>, paths: seq<string>, masks: seq<bv32>,
                                n: nat, i: nat, root: string, callback: Callback)
    requires n <= |paths| && n <= |masks| && i < n
    requires IsEnumeration(order, Register(index, root, callback).Keys)
    requires root <= Dirname(paths[i])
    ensures Call(root, callback, Dirname(paths[i]), KernelDropped(masks[i]))
      in PlannedCalls(Register(index, root, callback), order, paths, masks, n)
  {
    var c := Call(root, callback, Dirname(paths[i]), KernelDropped(masks[i]));
    assert FromEvent(c, paths, masks, i);
    PlannedCallsMembership(Register(index, root, callback), order, paths, masks, n, c);
  }

  /**
   * Watching a file that is not a directory: an event reported on the file itself
   * calls the callback registered for it, under the file's dirname.
   */
  lemma FileEventReachesItsRoot(fs: FileSystem, index: WatchIndex, order: seq<string>, paths: seq<string>,
                                masks: seq<bv32>, n: nat, i: nat, fPath: string, callback: Callback)
    requires n <= |paths| && n <= |masks| && i < n
    requires WatchRoot(fs, fPath).Ok?
    requires IsEnumeration(order, Register(index, WatchRoot(fs, fPath).value, callback).Keys)
    requires paths[i] == fs.realpath(fs.expanduser(fPath)) && paths[i] !in fs.directories
    ensures Call(WatchRoot(fs, fPath).value, callback, Dirname(paths[i]), KernelDropped(masks[i]))
      in PlannedCalls(Register(index, WatchRoot(fs, fPath).value, callback), order, paths, masks, n)
  {
    RegisteredCallbackFires(index, order, paths, masks, n, i, WatchRoot(fs, fPath).value, callback);
  }

  /**
   * A conditional restart fires: once its check is registered, any event under its
   * root ends the batch in a restart when the file's mtime has moved or stat fails.
   */
  lemma ConditionalRestartFires(index: WatchIndex, order: seq<string>, paths: seq<string>, masks: seq<bv32>,
                                n: nat, i: nat, root: string, file: string, baseline: int, reason: string,
                                mtime: map<string, int>)
    requires n <= |paths| && n <= |masks| && i < n
    requires IsEnumeration(order, Register(index, root, RestartCheck(file, baseline, reason)).Keys)
    requires root <= Dirname(paths[i])
    requires file !in mtime || mtime[file] != baseline
    ensures Execute(PlannedCalls(Register(index, root, RestartCheck(file, baseline, reason)), order, paths, masks, n),
                    mtime).restart.Some?
  {
    var check := RestartCheck(file, baseline, reason);
    var calls := PlannedCalls(Register(index, root, check), order, paths, masks, n);
    RegisteredCallbackFires(index, order, paths, masks, n, i, root, check);
    var c := Call(root, check, Dirname(paths[i]), KernelDropped(masks[i]));
    var j :| 0 <= j < |calls| && calls[j] == c;
    assert Triggers(calls[j], mtime);
    ExecuteRestartsIff(calls, mtime);
  }

  lemma PrefixOfAppend(a: seq<Call>, b: seq<Call>, e: seq<Call>)
    requires a <= b
    ensures a <= b + e
  {
    assert (b + e)[..|a|] == b[..|a|];
  }

  lemma PrefixTransitive(a: seq<Call>, b: seq<Call>, c: seq<Call>)
    requires a <= b && b <= c
    ensures a <= c
  {
    assert c[..|a|] == b[..|a|];
  }

  /** The calls of the first `r` roots of an event come first among the calls of the event. */
  lemma {:induction false} EventCallsPrefix(index: WatchIndex, roots: seq<string>, r: nat, path: string, recursive: bool)
    requires r <= |roots|
    requires forall k :: k in roots ==> k in index
    ensures EventCalls(index, roots[..r], path, recursive) <= EventCalls(index, roots, path, recursive)
    decreases |roots|
  {
    if r < |roots| {
      var init := roots[..|roots| - 1];
      assert roots[..r] == init[..r];
      EventCallsPrefix(index, init, r, path, recursive);
      var a := EventCalls(index, roots[..r], path, recursive);
      var b := EventCalls(index, init, path, recursive);
      var last := roots[|roots| - 1];
      assert (b + RootCalls(last, index[last], path, recursive))[..|a|] == b[..|a|];
    } else {
      assert roots[..r] == roots;
    }
  }

  /** Once a prefix of the calls has requested a restart, the rest change nothing. */
  lemma ExecutePrefixRestarts(a: seq<Call>, b: seq<Call>, mtime: map<string, int>)
    requires a <= b
    requires Execute(a, mtime).restart.Some?
    ensures Execute(b, mtime) == Execute(a, mtime)
  {
    assert b == a + b[|a|..];
    ExecuteStopsAtRestart(a, b[|a|..], mtime);
  }

  lemma PrefixPrepend(p: seq<Call>, a: seq<Call>, b: seq<Call>)
    requires a <= b
    ensures p + a <= p + b
  {
    assert (p + b)[..|p + a|] == p + b[..|a|];
  }

  /** One more callback of a root adds one call. */
  lemma RootCallsSnoc(root: string, callbacks: seq<Callback>, j: nat, path: string, recursive: bool)
    requires j < |callbacks|
    ensures RootCalls(root, callbacks[..j + 1], path, recursive)
      == RootCalls(root, callbacks[..j], path, recursive) + [Call(root, callbacks[j], path, recursive)]
  {
  }

  /** One more root of an event adds the calls of all its callbacks. */
  lemma EventCallsSnoc(index: WatchIndex, roots: seq<string>, r: nat, path: string, recursive: bool)
    requires r < |roots|
    requires forall k :: k in roots ==> k in index
    ensures EventCalls(index, roots[..r + 1], path, recursive)
      == EventCalls(index, roots[..r], path, recursive) + RootCalls(roots[r], index[roots[r]], path, recursive)
  {
    assert roots[..r + 1][..r] == roots[..r];
  }

  /** Within one event: the calls of the first roots and part of the next are a prefix of the event's. */
  lemma EventPartIsPrefix(index: WatchIndex, roots: seq<string>, r: nat, part: seq<Call>, path: string, recursive: bool)
    requires forall k :: k in roots ==> k in index
    requires r < |roots|
    requires part <= RootCalls(roots[r], index[roots[r]], path, recursive)
    ensures EventCalls(index, roots[..r], path, recursive) + part <= EventCalls(index, roots, path, recursive)
  {
    var whole := RootCalls(roots[r], index[roots[r]], path, recursive);
    EventCallsSnoc(index, roots, r, path, recursive);
    EventCallsPrefix(index, roots, r + 1, path, recursive);
    var earlier := EventCalls(index, roots[..r], path, recursive);
    PrefixPrepend(earlier, part, whole);
    PrefixTransitive(earlier + part, EventCalls(index, roots[..r + 1], path, recursive), EventCalls(index, roots, path, recursive));
  }

  /** Across events: the earlier events' calls and a prefix of event `i`'s are a prefix of the batch's. */
  lemma EventPrefixIsBatchPrefix(index: WatchIndex, order: seq<string>, paths: seq<string>, masks: seq<bv32>,
                                 n: nat, i: nat, soFar: seq<Call>)
    requires n <= |paths| && n <= |masks| && i < n
    requires forall k :: k in order ==> k in index
    requires soFar <= EventCallsAt(index, order, paths, masks, i)
    ensures Flatten(EventCallsList(index, order, paths, masks, n)[..i]) + soFar
      <= PlannedCalls(index, order, paths, masks, n)
  {
    FlattenPartIsPrefix(EventCallsList(index, order, paths, masks, n), i, soFar);
  }

  /** The first `i` lists and a prefix of list `i` are a prefix of all the lists flattened. */
  lemma FlattenPartIsPrefix(lists: seq<seq<Call>>, i: nat, soFar: seq<Call>)
    requires i < |lists| && soFar <= lists[i]
    ensures Flatten(lists[..i]) + soFar <= Flatten(lists)
  {
    FlattenSnoc(lists, i);
    FlattenPrefix(lists, i + 1);
    assert lists[..|lists|] == lists;
    PrefixPrepend(Flatten(lists[..i]), soFar, lists[i]);
    PrefixTransitive(Flatten(lists[..i]) + soFar, Flatten(lists[..i + 1]), Flatten(lists));
  }

  lemma RootCallsPrefix(root: string, callbacks: seq<Callback>, j: nat, path: string, recursive: bool)
    requires j <= |callbacks|
    ensures RootCalls(root, callbacks[..j], path, recursive) <= RootCalls(root, callbacks, path, recursive)
  {
    assert RootCalls(root, callbacks[..j], path, recursive) == RootCalls(root, callbacks, path, recursive)[..j];
  }
}
