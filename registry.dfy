/**
 * Handler resolution: turning the names in a configuration entry into something
 * that can be called, against an abstract table of importable modules that stands
 * in for `__import__`.
 */
module Registry {
  import opened Outcomes
  import opened Strings

  /** What a module attribute is, as far as crankd cares. */
  datatype Attribute =
    | Function
    | Class(methods: set<string>, isBaseHandler: bool,  // callable members; subclass of BaseHandler?
            constructs: bool)                     // does calling it with no arguments return?
    | Constant                                           // anything that cannot be called

  /** An importable module: attribute name to attribute. */
  type Module = map<string, Attribute>

  /** Every module that `__import__` can load, by its full dotted name. */
  type ModuleTable = map<string, Module>

  /** The callable that a name resolved to, with the module it was found in. */
  datatype Callable = Callable(moduleName: string, name: string, attribute: Attribute)

  /**
   * get_mod_func: split a dotted name at its LAST dot; a name without a dot is all
   * module and no function.
   */
  function GetModFunc(callback: string): (r: (string, string))
    ensures '.' in callback ==> r.0 + "." + r.1 == callback && '.' !in r.1
    ensures '.' !in callback ==> r == (callback, "")
  {
    match LastIndexOf(callback, '.')
    case None => (callback, "")
    case Some(dot) =>
      assert callback == callback[..dot] + "." + callback[dot + 1..];
      (callback[..dot], callback[dot + 1..])
  }

  /** The two parts are determined by the name: the split of `m.f` with a dot-free `f` is (m, f). */
  lemma {:induction false} GetModFuncOfQualified(m: string, f: string)
    requires '.' !in f
    ensures GetModFunc(m + "." + f) == (m, f)
  {
    var s := m + "." + f;
    assert s[|m|] == '.';
    var r := GetModFunc(s);
    assert r.0 + "." + r.1 == s;
    assert |r.1| == |f|;
    assert r.1 == s[|s| - |f|..] == f;
    assert r.0 == s[..|m|] == m;
  }

  /** get_mod_func yields two empty parts exactly for "" and "." — the names rejected outright. */
  lemma GetModFuncBothEmpty(s: string)
    ensures GetModFunc(s) == ("", "") <==> s == "" || s == "."
  {
    if s == "." {
      GetModFuncOfQualified("", "");
    }
  }

  /** The attribute looked up once the name is split: an empty function part means the eponymous one. */
  function AttributeName(parts: (string, string)): string {
    if parts.1 == "" then parts.0 else parts.1
  }

  /**
   * get_callable_from_string, with the module searched being the module named. This is
   * what the rest of the model uses; GetCallableFromStringAsWritten is the code as it stands.
   */
  function GetCallableFromString(modules: ModuleTable, fName: string): (r: Result<Callable>)
    ensures r.Ok? ==> var parts := GetModFunc(fName);
      r.value.moduleName == parts.0 && r.value.name == AttributeName(parts)
      && parts.0 in modules && r.value.name in modules[parts.0]
      && r.value.attribute == modules[parts.0][r.value.name]
    ensures r.Err? ==> r.error == EmptyModuleName || r.error == CannotResolve(fName)
  {
    var parts := GetModFunc(fName);
    if parts.0 == "" && parts.1 == "" then Err(CannotResolve(fName))
    else if parts.0 == "" then Err(EmptyModuleName)
    else if parts.0 !in modules then Err(CannotResolve(fName))
    else
      var name := AttributeName(parts);
      if name in modules[parts.0] then Ok(Callable(parts.0, name, modules[parts.0][name]))
      else Err(CannotResolve(fName))
  }

  /** A name resolves exactly when its module part is importable and holds the attribute. */
  lemma GetCallableFromStringResolves(modules: ModuleTable, fName: string)
    ensures var parts := GetModFunc(fName);
      GetCallableFromString(modules, fName).Ok?
      <==> parts.0 != "" && parts.0 in modules && AttributeName(parts) in modules[parts.0]
  {
  }

  /** A name without a dot names a module and the attribute of the same name inside it. */
  lemma EponymousLookup(modules: ModuleTable, name: string)
    requires name != "" && '.' !in name
    ensures GetCallableFromString(modules, name)
      == if name in modules && name in modules[name] then Ok(Callable(name, name, modules[name][name]))
         else Err(CannotResolve(name))
  {
  }

  /** A qualified name `m.f` looks `f` up in module `m`. */
  lemma QualifiedLookup(modules: ModuleTable, m: string, f: string)
    requires m != "" && f != "" && '.' !in f
    ensures GetCallableFromString(modules, m + "." + f)
      == if m in modules && f in modules[m] then Ok(Callable(m, f, modules[m][f]))
         else Err(CannotResolve(m + "." + f))
  {
    GetModFuncOfQualified(m, f);
  }

  /** `__import__(name)` as written: it loads the named module but returns its top-level package. */
  function ImportAsWritten(modules: ModuleTable, name: string): (r: Result<string>)
    ensures r.Ok? ==> name in modules && r.value == TopLevelName(name) && r.value in modules
  {
    if name == "" then Err(EmptyModuleName)
    else if name !in modules || TopLevelName(name) !in modules then Err(CannotResolve(name))
    else Ok(TopLevelName(name))
  }

  /** get_callable_from_string exactly as written: the attribute is looked up on the top-level package. */
  function GetCallableFromStringAsWritten(modules: ModuleTable, fName: string): (r: Result<Callable>)
    ensures r.Ok? ==> var parts := GetModFunc(fName);
      r.value.moduleName == TopLevelName(parts.0) && r.value.name == AttributeName(parts)
  {
    var parts := GetModFunc(fName);
    if parts.0 == "" && parts.1 == "" then Err(CannotResolve(fName))
    else match ImportAsWritten(modules, parts.0)
      case Err(EmptyModuleName) => Err(EmptyModuleName)
      case Err(_) => Err(CannotResolve(fName))
      case Ok(searched) =>
        var name := AttributeName(parts);
        if name in modules[searched] then Ok(Callable(searched, name, modules[searched][name]))
        else Err(CannotResolve(fName))
  }

  /**
   * The discrepancy: a function defined in module `pkg.mod` cannot be named as
   * "pkg.mod.f" unless the package `pkg` itself happens to define `f`.
   */
  lemma DottedModuleResolvesOnPackage(modules: ModuleTable, pkg: string, sub: string, f: string)
    requires pkg != "" && '.' !in pkg && f != "" && '.' !in f
    requires pkg in modules && f !in modules[pkg]
    requires pkg + "." + sub in modules && f in modules[pkg + "." + sub]
    ensures GetCallableFromStringAsWritten(modules, pkg + "." + sub + "." + f)
      == Err(CannotResolve(pkg + "." + sub + "." + f))
    ensures GetCallableFromString(modules, pkg + "." + sub + "." + f)
      == Ok(Callable(pkg + "." + sub, f, modules[pkg + "." + sub][f]))
  {
    GetModFuncOfQualified(pkg + "." + sub, f);
    TopLevelOfQualified(pkg, sub);
  }

  lemma {:induction false} TopLevelOfQualified(m: string, rest: string)
    requires '.' !in m
    ensures TopLevelName(m + "." + rest) == m
  {
    if m != [] {
      assert (m + "." + rest)[1..] == m[1..] + "." + rest;
      TopLevelOfQualified(m[1..], rest);
    }
  }

  /** The two agree whenever the module part has no dot, the common case in crankd's configurations. */
  lemma AsWrittenAgreesOnUndottedModules(modules: ModuleTable, fName: string)
    requires '.' !in GetModFunc(fName).0
    ensures GetCallableFromStringAsWritten(modules, fName) == GetCallableFromString(modules, fName)
  {
    var parts := GetModFunc(fName);
    TopLevelOfUndotted(parts.0);
  }

  lemma {:induction false} TopLevelOfUndotted(name: string)
    requires '.' !in name
    ensures TopLevelName(name) == name
  {
    if name != [] {
      TopLevelOfUndotted(name[1..]);
    }
  }

  /** One configuration entry: the keys of the dictionary that crankd reads. */
  datatype EventConfig = EventConfig(
    command: Option<string>,
    functionName: Option<string>,
    methodTarget: Option<(string, string)>,
    handlerClass: Option<string>)

  /** The handler that get_callable_for_event builds, before names are resolved. */
  datatype HandlerSpec =
    | CommandSpec(command: string)
    | FunctionSpec(functionName: string)
    | MethodSpec(className: string, methodName: string)

  /** get_callable_for_event's choice: command, else function, else method; the "class" key is not looked at. */
  function SelectHandler(name: string, config: EventConfig): (r: Result<HandlerSpec>)
    ensures r.Err? <==> config.command.None? && config.functionName.None? && config.methodTarget.None?
    ensures r.Err? ==> r.error == NoHandlerKind(name)
    ensures r.Ok? && r.value.CommandSpec? ==> config.command == Some(r.value.command)
    ensures r.Ok? && r.value.FunctionSpec? ==> config.command.None? && config.functionName == Some(r.value.functionName)
    ensures r.Ok? && r.value.MethodSpec? ==>
      config.command.None? && config.functionName.None? && config.methodTarget == Some((r.value.className, r.value.methodName))
  {
    if config.command.Some? then Ok(CommandSpec(config.command.value))
    else if config.functionName.Some? then Ok(FunctionSpec(config.functionName.value))
    else if config.methodTarget.Some? then Ok(MethodSpec(config.methodTarget.value.0, config.methodTarget.value.1))
    else Err(NoHandlerKind(name))
  }

  /** An entry with only a "class" key is refused by get_callable_for_event. */
  lemma ClassOnlyEntryRejected(name: string, className: string)
    ensures SelectHandler(name, EventConfig(None, None, None, Some(className))) == Err(NoHandlerKind(name))
  {
  }

  /** The single instance kept for a handler class; its identity is the object's. */
  class HandlerObject {
    const className: string
    const methods: set<string>

    constructor (className: string, methods: set<string>)
      ensures this.className == className && this.methods == methods
    {
      this.className := className;
      this.methods := methods;
    }
  }

  /** The keyword arguments bound into every handler (the logger is left out). */
  datatype BoundArgs = BoundArgs(context: string, key: string, config: EventConfig)

  /** A resolved handler: the partial application get_callable_for_event returns. */
  datatype Handler =
    | ShellCommand(command: string, args: BoundArgs)
    | FunctionCall(target: Callable, args: BoundArgs)
    | MethodCall(obj: HandlerObject, methodName: string, args: BoundArgs)

  /**
   * What calling the class named `className` gives: the callable members of a fresh
   * instance, or the error. A constructor that raises or needs arguments fails before
   * anything is cached; a BaseHandler subclass then fails on the undefined global `options`.
   */
  function Instantiation(modules: ModuleTable, className: string): (r: Result<set<string>>)
    ensures r.Ok? <==> (GetCallableFromString(modules, className).Ok?
      && GetCallableFromString(modules, className).value.attribute.Class?
      && GetCallableFromString(modules, className).value.attribute.constructs
      && !GetCallableFromString(modules, className).value.attribute.isBaseHandler)
    ensures r.Ok? ==> r.value == GetCallableFromString(modules, className).value.attribute.methods
  {
    match GetCallableFromString(modules, className)
    case Err(e) => Err(e)
    case Ok(c) =>
      match c.attribute
      case Class(methods, isBaseHandler, constructs) =>
        if !constructs then Err(ConstructorRaised(className))
        else if isBaseHandler then Err(OptionsUndefined(className))
        else Ok(methods)
      case _ => Err(NotInstantiable(className))
  }

  /** The handler a "function" entry becomes: partial() refuses a non-callable attribute. */
  function BindFunction(modules: ModuleTable, fName: string, args: BoundArgs): (r: Result<Handler>)
    ensures r.Ok? <==> (GetCallableFromString(modules, fName).Ok?
      && !GetCallableFromString(modules, fName).value.attribute.Constant?)
    ensures r.Ok? ==> r.value == FunctionCall(GetCallableFromString(modules, fName).value, args)
  {
    match GetCallableFromString(modules, fName)
    case Err(e) => Err(e)
    case Ok(c) => if c.attribute.Constant? then Err(NotCallable(fName)) else Ok(FunctionCall(c, args))
  }

  /** The Objective-C selector a class handler is registered under: "on<event>:". */
  function NotificationSelector(event: string): string {
    "on" + event + ":"
  }

  /** The Python method a class handler must define: the selector with every ':' made '_'. */
  function PythonMethodName(event: string): (r: string)
    ensures |r| == |event| + 3 && r[..2] == "on" && r[|r| - 1] == '_'
    ensures ':' !in r
    ensures forall i :: 0 <= i < |event| ==> r[i + 2] == if event[i] == ':' then '_' else event[i]
  {
    var selector := NotificationSelector(event);
    assert forall i :: 0 <= i < |event| ==> selector[i + 2] == event[i];
    Replace(selector, ':', '_')
  }

  /** For an ordinary notification name the method is "on<event>_". */
  lemma PythonMethodNameOfPlainEvent(event: string)
    requires ':' !in event
    ensures PythonMethodName(event) == "on" + event + "_"
  {
    var r := PythonMethodName(event);
    assert forall i :: 0 <= i < |r| ==> r[i] == ("on" + event + "_")[i];
  }
}
