/**
 * Route and target resolution (Dispatcher.php lines 29-36 and 45-67): the
 * namespace prefix, the module and method names taken from PATH_INFO, and the
 * three checks that the target exists, is a module and has the method.
 */
module Routing {
  import opened Wrappers
  import opened PhpStrings
  import opened Binding
  import opened DispatchErrors

  /** The constructor's namespace handling: null gives "", anything else ends with one backslash. */
  function NormalizeNamespace(ns: Option<string>): (r: string)
    ensures ns.None? ==> r == ""
    ensures ns.Some? ==> |r| > 0 && r[|r| - 1] == '\\'
    ensures ns.Some? ==> |ns.value| <= |r| <= |ns.value| + 1 && r[..|ns.value|] == ns.value
    ensures ns.Some? && |ns.value| > 0 && ns.value[|ns.value| - 1] == '\\' ==> r == ns.value
  {
    match ns
    case None => ""
    case Some(s) => if |s| > 0 && s[|s| - 1] == '\\' then s else s + "\\"
  }

  /** Normalising an already normalised namespace changes nothing. */
  lemma NormalizeIdempotent(ns: string)
    ensures NormalizeNamespace(Some(NormalizeNamespace(Some(ns)))) == NormalizeNamespace(Some(ns))
  {
  }

  /** Module name, method name and path residue taken from PATH_INFO. */
  datatype Route = Route(moduleName: string, methodName: string, residue: seq<string>)

  /**
   * Lines 45-52: trim '/', explode on '/', shift the module name (prefixed with
   * the namespace) and the method name; an empty method name falls back to the
   * lower-cased request method.
   */
  function ParseRoute(ns: string, pathInfo: string, verb: string): (r: Route)
    ensures |r.moduleName| >= |ns| && r.moduleName[..|ns|] == ns
    ensures pathInfo == "" ==> r.moduleName == ns && r.methodName == Lower(verb) && r.residue == []
    ensures forall k :: 0 <= k < |r.residue| ==> '/' !in r.residue[k]
    ensures r.methodName == Lower(verb) || r.methodName !in {"", "0"}
  {
    var segs := Split(Trim(pathInfo, '/'), '/');
    var second := if |segs| >= 2 then Some(segs[1]) else None;
    Route(ns + segs[0],
          if Empty(second) then Lower(verb) else second.value,
          if |segs| >= 2 then segs[2..] else [])
  }

  lemma {:induction false} JoinLast(xs: seq<string>, c: char)
    requires |xs| >= 1 && xs[|xs| - 1] != []
    ensures var s := Join(xs, c); |s| > 0 && s[|s| - 1] == xs[|xs| - 1][|xs[|xs| - 1]| - 1]
  {
    if |xs| > 1 {
      JoinLast(xs[1..], c);
    }
  }

  /**
   * The route of a path built from segments: with any number of slashes around
   * it, the first segment names the module, the second (unless empty or "0") the
   * method, and the rest is the residue.
   */
  lemma RouteOfSegments(ns: string, lead: nat, xs: seq<string>, trail: nat, verb: string)
    requires |xs| >= 1 && xs[0] != [] && xs[|xs| - 1] != []
    requires forall i :: 0 <= i < |xs| ==> '/' !in xs[i]
    ensures ParseRoute(ns, Repeat('/', lead) + Join(xs, '/') + Repeat('/', trail), verb) ==
            Route(ns + xs[0],
                  if |xs| >= 2 && xs[1] != "" && xs[1] != "0" then xs[1] else Lower(verb),
                  if |xs| >= 2 then xs[2..] else [])
  {
    JoinLast(xs, '/');
    assert Join(xs, '/')[0] == xs[0][0] != '/';
    assert xs[|xs| - 1][|xs[|xs| - 1]| - 1] != '/';
    TrimPadded(lead, Join(xs, '/'), trail, '/');
    SplitJoin(xs, '/');
  }

  /** A path made only of slashes names the bare namespace as its module. */
  lemma EmptyRoute(ns: string, n: nat, verb: string)
    ensures ParseRoute(ns, Repeat('/', n), verb) == Route(ns, Lower(verb), [])
  {
    SlashesTrimEmpty(n);
    assert Split("", '/') == [""];
    assert ns + "" == ns;
  }

  lemma SlashesTrimEmpty(n: nat)
    ensures Trim(Repeat('/', n), '/') == ""
  {
    assert Repeat('/', n) + [] + Repeat('/', 0) == Repeat('/', n);
    TrimPadded(n, [], 0, '/');
  }

  /** What reflection reports about a method. */
  datatype MethodInfo = MethodInfo(isPublic: bool, isStatic: bool, requiredCount: nat, paramMeta: seq<ParamMeta>)

  /** What reflection reports about a class: whether it implements `ICallable`, and its methods by lower-cased name. */
  datatype ClassInfo = ClassInfo(isCallable: bool, methods: map<string, MethodInfo>)

  /** The classes `class_exists` can find (after autoloading), by lower-cased name without a leading backslash. */
  type Registry = map<string, ClassInfo>

  /**
   * What the class table can hold: a key is a class name as `ClassKey` renders
   * it (lower-cased, without a leading backslash), and `class_exists` never
   * finds an empty name or one ending in a backslash; methods are keyed by
   * lower-cased name; a method's parameter metadata is a PHP array keyed by
   * parameter name, so no name occurs twice.
   */
  predicate ValidRegistry(registry: Registry)
  {
    && (forall k :: k in registry ==> k != "" && k[0] != '\\' && k[|k| - 1] != '\\' && Lower(k) == k)
    && (forall k, m :: k in registry && m in registry[k].methods ==> Lower(m) == m)
    && (forall k, m :: k in registry && m in registry[k].methods ==> DistinctNames(registry[k].methods[m].paramMeta))
  }

  /** PHP class names are case-insensitive, and a single leading backslash is ignored. */
  function ClassKey(name: string): (r: string)
    ensures |r| <= |name|
    ensures forall i :: 0 <= i < |r| ==> !('A' <= r[i] <= 'Z')
  {
    Lower(if |name| > 0 && name[0] == '\\' then name[1..] else name)
  }

  /** `class_exists($module)` and `new \ReflectionClass($module)`. */
  function FindClass(registry: Registry, name: string): Option<ClassInfo>
  {
    if ClassKey(name) in registry then Some(registry[ClassKey(name)]) else None
  }

  /** `hasMethod($method)` and `getMethod($method)`: method names are case-insensitive. */
  function FindMethod(cls: ClassInfo, name: string): Option<MethodInfo>
  {
    if Lower(name) in cls.methods then Some(cls.methods[Lower(name)]) else None
  }

  /** Two spellings of a class name that differ only in letter case find the same class. */
  lemma ClassKeyIgnoresCase(a: string, b: string)
    requires Lower(a) == Lower(b)
    ensures ClassKey(a) == ClassKey(b)
  {
    if |a| > 0 {
      assert Lower(a)[0] == '\\' <==> a[0] == '\\';
      assert Lower(b)[0] == '\\' <==> b[0] == '\\';
      LowerDrop(a);
      LowerDrop(b);
    }
  }

  /** A leading backslash does not change which class a name finds. */
  lemma ClassKeyLeadingBackslash(name: string)
    requires name == [] || name[0] != '\\'
    ensures ClassKey("\\" + name) == ClassKey(name)
  {
    assert ("\\" + name)[1..] == name;
  }

  /** Two spellings of a method name that differ only in letter case find the same method. */
  lemma FindMethodIgnoresCase(cls: ClassInfo, a: string, b: string)
    requires Lower(a) == Lower(b)
    ensures FindMethod(cls, a) == FindMethod(cls, b)
  {
  }

  /** The resolved route and the reflected method. */
  datatype Target = Target(route: Route, target: MethodInfo)

  /** Lines 45-69: the route, then the three checks in their fixed order. */
  function Resolve(ns: string, pathInfo: string, verb: string, registry: Registry): (r: Result<Target, DispatchException>)
    ensures var route := ParseRoute(ns, pathInfo, verb);
            var cls := FindClass(registry, route.moduleName);
            && (cls.None? ==> r == Failure(ModuleNotFound(route.moduleName)))
            && (cls.Some? && !cls.value.isCallable ==> r == Failure(NotAModule(pathInfo)))
            && (cls.Some? && cls.value.isCallable && FindMethod(cls.value, route.methodName).None? ==>
                  r == Failure(MethodNotFound(pathInfo)))
            && (r.Success? <==> cls.Some? && cls.value.isCallable && FindMethod(cls.value, route.methodName).Some?)
            && (r.Success? ==> r.value == Target(route, FindMethod(cls.value, route.methodName).value))
    ensures r.Failure? ==> (r.error.Code() == NotFound <==> FindClass(registry, ParseRoute(ns, pathInfo, verb).moduleName).None?)
  {
    var route := ParseRoute(ns, pathInfo, verb);
    match FindClass(registry, route.moduleName)
    case None => Failure(ModuleNotFound(route.moduleName))
    case Some(cls) =>
      if !cls.isCallable then Failure(NotAModule(pathInfo))
      else
        match FindMethod(cls, route.methodName)
        case None => Failure(MethodNotFound(pathInfo))
        case Some(m) => Success(Target(route, m))
  }

  /** PHP strips only one leading backslash, so a name starting with two finds no class. */
  lemma DoubleBackslashNotFound(registry: Registry, name: string)
    requires ValidRegistry(registry)
    ensures FindClass(registry, "\\\\" + name).None?
  {
    var t := "\\" + name;
    assert ("\\\\" + name)[1..] == t;
    assert t[0] == '\\' && Lower(t)[0] == '\\';
    assert ClassKey("\\\\" + name) == Lower(t);
  }

  /**
   * A path with no module segment names the bare namespace, and no class has
   * that name: the request fails with 404 whatever the registry holds.
   */
  lemma SlashOnlyPathNotFound(o: Option<string>, n: nat, verb: string, registry: Registry)
    requires ValidRegistry(registry)
    ensures var ns := NormalizeNamespace(o);
            Resolve(ns, Repeat('/', n), verb, registry) == Failure(ModuleNotFound(ns))
  {
    var ns := NormalizeNamespace(o);
    EmptyRoute(ns, n, verb);
    NamespaceKeyUnfindable(ns);
    assert FindClass(registry, ns).None?;
  }

  /** The class key of a normalised namespace is empty or ends in a backslash. */
  lemma NamespaceKeyUnfindable(ns: string)
    requires ns == "" || ns[|ns| - 1] == '\\'
    ensures var key := ClassKey(ns); key == "" || key[|key| - 1] == '\\'
  {
    if |ns| > 1 {
      var stem := if ns[0] == '\\' then ns[1..] else ns;
      assert stem[|stem| - 1] == '\\';
    }
  }
}
