/**
 * The dispatcher object (Dispatcher.php): it normalises its namespace when
 * constructed; `Dispatch` resolves the target, binds the parameters in place,
 * checks that the call is legal and optionally clears the request data;
 * `Invoke` hands the bound parameters to the resolved method.
 */
module Dispatching {
  import opened Wrappers
  import opened PhpStrings
  import opened RequestValues
  import opened Binding
  import opened DispatchErrors
  import opened Routing

  /** Lines 110-111: a static, public method given at least its required number of parameters. */
  predicate Invocable(target: MethodInfo, params: Params)
  {
    target.isStatic && target.isPublic && |params| >= target.requiredCount
  }

  /** A call `dispatch` has accepted: the method and the parameters it will get. */
  datatype Call = Call(target: MethodInfo, params: Params)

  /** Everything `dispatch` decides, as one value: the exception it throws, or the accepted call. */
  function Outcome(ns: string, pathInfo: string, verb: string, post: map<string, Value>, get: map<string, Value>,
                   registry: Registry, coerce: Coercion): (r: Result<Call, DispatchException>)
    ensures var res := Resolve(ns, pathInfo, verb, registry);
            && (res.Failure? ==> r == Failure(res.error))
            && (res.Success? ==>
                  var t := res.value.target;
                  var bound := BindParams(t.paramMeta, post, get, res.value.route.residue, coerce);
                  && (r.Failure? <==> !t.isStatic || !t.isPublic || |bound| < t.requiredCount)
                  && (r.Failure? ==> r.error == IllegalInvocation(pathInfo))
                  && (r.Success? ==> r.value == Call(t, bound)))
    ensures r.Success? ==> |r.value.params| <= |r.value.target.paramMeta|
  {
    match Resolve(ns, pathInfo, verb, registry)
    case Failure(e) => Failure(e)
    case Success(t) =>
      var bound := BindParams(t.target.paramMeta, post, get, t.route.residue, coerce);
      BindLength(t.target.paramMeta, post, get, t.route.residue, coerce);
      if Invocable(t.target, bound) then Success(Call(t.target, bound)) else Failure(IllegalInvocation(pathInfo))
  }

  /**
   * With a class table PHP can hold, an accepted call's parameters are keyed by
   * declared names, in declaration order and without repeats, as the PHP array
   * `$this->params` is.
   */
  lemma OutcomeKeys(ns: string, pathInfo: string, verb: string, post: map<string, Value>, get: map<string, Value>,
                    registry: Registry, coerce: Coercion)
    requires ValidRegistry(registry)
    ensures var r := Outcome(ns, pathInfo, verb, post, get, registry, coerce);
            r.Success? ==>
              && (forall k :: 0 <= k < |r.value.params| ==> r.value.params[k].0 in Names(r.value.target.paramMeta))
              && (forall k1, k2 :: 0 <= k1 < k2 < |r.value.params| ==>
                    NameIndex(r.value.target.paramMeta, r.value.params[k1].0) <
                    NameIndex(r.value.target.paramMeta, r.value.params[k2].0))
              && (forall k1, k2 :: 0 <= k1 < k2 < |r.value.params| ==> r.value.params[k1].0 != r.value.params[k2].0)
  {
    var res := Resolve(ns, pathInfo, verb, registry);
    if res.Success? {
      var route := res.value.route;
      var key := ClassKey(route.moduleName);
      var m := Lower(route.methodName);
      assert key in registry && m in registry[key].methods;
      var meta := res.value.target.paramMeta;
      assert meta == registry[key].methods[m].paramMeta;
      BindKeysInOrder(meta, post, get, route.residue, coerce);
    }
  }

  /** What `invokeArgs(NULL, $params)` is given: no receiver, the parameter values in order. */
  datatype Invocation = Invocation(target: MethodInfo, args: seq<Value>)

  function Values(params: Params): (r: seq<Value>)
    ensures |r| == |params| && forall i :: 0 <= i < |params| ==> r[i] == params[i].1
  {
    seq(|params|, i requires 0 <= i < |params| => params[i].1)
  }

  /**
   * Lines 91-99: the `while` over the remaining source segments, each step an
   * `array_shift` and an `isset` lookup; the first absent key leaves null.
   */
  method Scan(root: Value, keys: seq<string>) returns (src: Value)
    ensures src == Walk(root, keys)
  {
    src := root;
    var p := keys;
    while |p| > 0
      invariant Walk(src, p) == Walk(root, keys)
    {
      var subIndex := p[0];
      p := p[1..];
      var next := Lookup(src, subIndex);
      if next.Some? {
        src := next.value;
      } else {
        src := Null;
        break;
      }
    }
  }

  /**
   * Lines 45-52: explode the trimmed path, `array_shift` the module name
   * (prefixed with the namespace) and the method name; an empty method name
   * falls back to the lower-cased request method. What is left is the residue.
   */
  method SplitRoute(ns: string, path: string, verb: string) returns (moduleName: string, methodName: string, pathInfo: seq<string>)
    ensures Route(moduleName, methodName, pathInfo) == ParseRoute(ns, path, verb)
  {
    pathInfo := Split(Trim(path, '/'), '/');
    moduleName := ns + pathInfo[0];
    pathInfo := pathInfo[1..];
    var shifted: Option<string> := None;
    if |pathInfo| > 0 {
      shifted := Some(pathInfo[0]);
      pathInfo := pathInfo[1..];
    }
    methodName := if Empty(shifted) then Lower(verb) else shifted.value;
  }

  /**
   * Lines 45-69: the route, then the three checks in their fixed order: the
   * class exists, implements `ICallable` and has the method.
   */
  method FindTarget(ns: string, path: string, verb: string, registry: Registry)
    returns (r: Result<Target, DispatchException>)
    ensures r == Resolve(ns, path, verb, registry)
  {
    var moduleName, methodName, pathInfo := SplitRoute(ns, path, verb);
    var cls := FindClass(registry, moduleName);
    if cls.None? {
      return Failure(ModuleNotFound(moduleName));
    }
    if !cls.value.isCallable {
      return Failure(NotAModule(path));
    }
    var found := FindMethod(cls.value, methodName);
    if found.None? {
      return Failure(MethodNotFound(path));
    }
    return Success(Target(Route(moduleName, methodName, pathInfo), found.value));
  }

  /** The request superglobals: `$_SERVER['PATH_INFO']`, `$_SERVER['REQUEST_METHOD']`, `$_GET`, `$_POST`, `$_REQUEST`. */
  class Request {
    var pathInfo: string
    var requestMethod: string
    var get: map<string, Value>
    var post: map<string, Value>
    var request: map<string, Value>

    constructor (pathInfo: string, requestMethod: string, get: map<string, Value>, post: map<string, Value>, request: map<string, Value>)
      ensures this.pathInfo == pathInfo && this.requestMethod == requestMethod
      ensures this.get == get && this.post == post && this.request == request
    {
      this.pathInfo := pathInfo;
      this.requestMethod := requestMethod;
      this.get := get;
      this.post := post;
      this.request := request;
    }
  }

  class Dispatcher {
    var resNamespace: string
    /** The annotation parser's parameter metadata for the resolved method. */
    var parser: Option<seq<ParamMeta>>
    var params: Option<Params>
    var reflectionMethod: Option<MethodInfo>

    /** Lines 29-36. */
    constructor (resNamespace: Option<string> := None)
      ensures this.resNamespace == NormalizeNamespace(resNamespace)
      ensures parser.None? && params.None? && reflectionMethod.None?
    {
      this.resNamespace := "";
      parser, params, reflectionMethod := None, None, None;
      if resNamespace.Some? {
        var ns := resNamespace.value;
        if !(|ns| > 0 && ns[|ns| - 1] == '\\') {
          ns := ns + "\\";
        }
        this.resNamespace := ns;
      }
    }

    /**
     * Lines 43-120. On a failed check of the target nothing is assigned; once
     * the method is found, `reflectionMethod`, `parser` and `params` are set
     * even if the legality check then throws. The request data is cleared only
     * when asked to and when nothing was thrown.
     */
    method Dispatch(req: Request, registry: Registry, coerce: Coercion, clearRequest: bool := true)
      returns (thrown: Option<DispatchException>)
      modifies this, req
      ensures resNamespace == old(resNamespace)
      ensures req.pathInfo == old(req.pathInfo) && req.requestMethod == old(req.requestMethod)
      ensures var res := Resolve(old(resNamespace), old(req.pathInfo), old(req.requestMethod), registry);
              && (res.Failure? ==>
                    params == old(params) && reflectionMethod == old(reflectionMethod) && parser == old(parser))
              && (res.Success? ==>
                    && reflectionMethod == Some(res.value.target)
                    && parser == Some(res.value.target.paramMeta)
                    && params == Some(BindParams(res.value.target.paramMeta, old(req.post), old(req.get),
                                                 res.value.route.residue, coerce)))
      ensures thrown == match Outcome(old(resNamespace), old(req.pathInfo), old(req.requestMethod),
                                      old(req.post), old(req.get), registry, coerce)
                        case Failure(e) => Some(e)
                        case Success(_) => None
      ensures if thrown.None? && clearRequest
              then req.get == map[] && req.post == map[] && req.request == map[]
              else req.get == old(req.get) && req.post == old(req.post) && req.request == old(req.request)
    {
      var path := req.pathInfo;
      ghost var outcome := Outcome(resNamespace, path, req.requestMethod, req.post, req.get, registry, coerce);
      var resolved := FindTarget(resNamespace, path, req.requestMethod, registry);
      if resolved.Failure? {
        assert outcome == Failure(resolved.error);
        return Some(resolved.error);
      }
      var target := resolved.value.target;
      reflectionMethod := Some(target);
      parser := Some(target.paramMeta);
      CollectParams(target.paramMeta, req.post, req.get, resolved.value.route.residue, coerce);
      assert outcome == if Invocable(target, params.value) then Success(Call(target, params.value))
                        else Failure(IllegalInvocation(path));

      if !target.isStatic || !target.isPublic || |params.value| < target.requiredCount {
        return Some(IllegalInvocation(path));
      }
      if clearRequest {
        req.request, req.post, req.get := map[], map[], map[];
      }
      return None;
    }

    /**
     * Lines 74-106: `params` is reset and then filled in place, one metadata
     * entry at a time, in declaration order.
     */
    method CollectParams(meta: seq<ParamMeta>, post: map<string, Value>, get: map<string, Value>,
                         pathInfo: seq<string>, coerce: Coercion)
      modifies this`params
      ensures params == Some(BindParams(meta, post, get, pathInfo, coerce))
    {
      params := Some([]);
      var i := 0;
      while i < |meta|
        invariant 0 <= i <= |meta|
        invariant params == Some(BindParams(meta[..i], post, get, pathInfo, coerce))
      {
        var pMeta := meta[i];
        if pMeta.source.Some? {
          var p := Split(pMeta.source.value, '.');
          var head := p[0];
          p := p[1..];
          var src := Null;
          if head == "POST" {
            src := Dict(post);
          } else if head == "GET" {
            src := Dict(get);
          } else if head == "PATH" {
            src := PathValue(pathInfo);
          }
          assert src == Root(head, post, get, pathInfo);
          // scan deeper into the data according to the remaining segments
          src := Scan(src, p);
          assert src == SourceValue(pMeta.source.value, post, get, pathInfo);
          if src != Null {
            params := Some(params.value + [(pMeta.name, coerce(src, pMeta.typ))]);
          }
        }
        assert meta[..i + 1][..i] == meta[..i] && meta[..i + 1][i] == pMeta;
        i := i + 1;
      }
      assert meta[..i] == meta;
    }

    /** Lines 126-128: the resolved method, called without a receiver on the bound values. */
    method Invoke() returns (call: Option<Invocation>)
      ensures call.Some? <==> reflectionMethod.Some? && params.Some?
      ensures call.Some? ==> call.value.target == reflectionMethod.value &&
                             call.value.args == Values(params.value)
    {
      if reflectionMethod.Some? && params.Some? {
        call := Some(Invocation(reflectionMethod.value, Values(params.value)));
      } else {
        call := None;
      }
    }
  }
}
