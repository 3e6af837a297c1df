/** Concrete requests worked through the model. */
module Scenarios {
  import opened Wrappers
  import opened PhpStrings
  import opened RequestValues
  import opened Binding
  import opened Routing
  import opened DispatchErrors
  import opened Dispatching

  /** The Path source `PATH.0` reads the first residue segment. */
  lemma PathZeroSource(post: map<string, Value>, get: map<string, Value>, residue: seq<string>)
    requires |residue| > 0
    ensures SourceValue("PATH.0", post, get, residue) == Str(residue[0])
  {
    PathSource(0, post, get, residue);
    assert "PATH." + Decimal(0) == "PATH.0";
  }

  /** A one-entry metadata list binds its entry's value, or nothing. */
  lemma BindSingle(pm: ParamMeta, post: map<string, Value>, get: map<string, Value>, residue: seq<string>, coerce: Coercion)
    ensures BindParams([pm], post, get, residue, coerce) ==
            match BindOne(pm, post, get, residue, coerce)
            case None => []
            case Some(v) => [(pm.name, v)]
  {
    assert [pm][..0] == [];
  }

  /** `PATH.0` with a one-segment residue binds that segment, coerced to the declared type. */
  lemma PathZero(seg: string, post: map<string, Value>, get: map<string, Value>, coerce: Coercion)
    ensures BindParams([ParamMeta("id", Some("PATH.0"), "int")], post, get, [seg], coerce) ==
            [("id", coerce(Str(seg), "int"))]
  {
    var pm := ParamMeta("id", Some("PATH.0"), "int");
    assert BindOne(pm, post, get, [seg], coerce) == Some(coerce(Str(seg), "int")) by {
      PathZeroSource(post, get, [seg]);
    }
    BindSingle(pm, post, get, [seg], coerce);
  }

  lemma PostUserIdSegments()
    ensures Split("POST.user.id", '.') == ["POST", "user", "id"]
  {
    assert Join(["id"], '.') == "id";
    assert Join(["user", "id"], '.') == "user" + "." + "id";
    assert Join(["POST", "user", "id"], '.') == "POST" + "." + ("user" + "." + "id");
    assert "POST" + "." + ("user" + "." + "id") == "POST.user.id";
    SplitJoin(["POST", "user", "id"], '.');
  }

  lemma UserIdWalk()
    ensures Walk(Dict(map["user" := Dict(map["id" := Str("42")])]), ["user", "id"]) == Str("42")
    ensures Walk(Dict(map[]), ["user", "id"]) == Null
  {
    assert ["user", "id"][1..] == ["id"];
    assert ["id"][1..] == [];
  }

  /** `POST.user.id` finds "42" in {"user": {"id": "42"}}, and nothing when "user" is absent. */
  lemma PostUserId(get: map<string, Value>, residue: seq<string>, coerce: Coercion)
    ensures var pm := ParamMeta("id", Some("POST.user.id"), "int");
            && BindOne(pm, map["user" := Dict(map["id" := Str("42")])], get, residue, coerce) == Some(coerce(Str("42"), "int"))
            && BindOne(pm, map[], get, residue, coerce).None?
  {
    PostUserIdSource(map["user" := Dict(map["id" := Str("42")])], get, residue);
    PostUserIdSource(map[], get, residue);
    UserIdWalk();
  }

  /** The source `POST.user.id` walks `$_POST` by "user", then "id". */
  lemma PostUserIdSource(post: map<string, Value>, get: map<string, Value>, residue: seq<string>)
    ensures SourceValue("POST.user.id", post, get, residue) == Walk(Dict(post), ["user", "id"])
  {
    PostUserIdSegments();
    assert ["POST", "user", "id"][1..] == ["user", "id"];
    assert Root("POST", post, get, residue) == Dict(post);
  }

  lemma CatalogRoute()
    ensures ParseRoute("shop\\", "/catalog/find/42", "GET") == Route("shop\\catalog", "find", ["42"])
  {
    var xs := ["catalog", "find", "42"];
    assert "shop\\" + "catalog" == "shop\\catalog";
    assert Join(xs[2..], '/') == "42";
    assert Join(xs[1..], '/') == "find" + "/" + "42";
    assert Join(xs, '/') == "catalog" + "/" + ("find" + "/" + "42");
    assert Repeat('/', 1) == "/" && Repeat('/', 0) == "";
    assert "/" + ("catalog" + "/" + ("find" + "/" + "42")) + "" == "/catalog/find/42";
    assert '/' !in "catalog" && '/' !in "find" && '/' !in "42";
    RouteOfSegments("shop\\", 1, xs, 0, "GET");
  }

  lemma CatalogResolve(registry: Registry, cls: ClassInfo, find: MethodInfo)
    requires registry == map[ClassKey("shop\\catalog") := cls] && cls.isCallable
    requires cls.methods == map[Lower("find") := find]
    ensures Resolve("shop\\", "/catalog/find/42", "GET", registry) == Success(Target(Route("shop\\catalog", "find", ["42"]), find))
  {
    CatalogRoute();
  }

  /**
   * `/catalog/find/42` with verb GET, where `find` is public static, needs
   * `required` parameters and takes `id` from `PATH.0`: with at most one required
   * parameter the call is accepted with id bound to the coerced "42"; with two or
   * more it is rejected.
   */
  lemma CatalogFind(post: map<string, Value>, get: map<string, Value>, coerce: Coercion, required: nat)
    ensures var meta := [ParamMeta("id", Some("PATH.0"), "int")];
            var find := MethodInfo(true, true, required, meta);
            var registry := map[ClassKey("shop\\catalog") := ClassInfo(true, map[Lower("find") := find])];
            var outcome := Outcome("shop\\", "/catalog/find/42", "GET", post, get, registry, coerce);
            && (required <= 1 ==> outcome == Success(Call(find, [("id", coerce(Str("42"), "int"))])))
            && (required >= 2 ==> outcome == Failure(IllegalInvocation("/catalog/find/42")))
  {
    var meta := [ParamMeta("id", Some("PATH.0"), "int")];
    var find := MethodInfo(true, true, required, meta);
    var cls := ClassInfo(true, map[Lower("find") := find]);
    CatalogResolve(map[ClassKey("shop\\catalog") := cls], cls, find);
    PathZero("42", post, get, coerce);
  }

  /** `new Dispatcher()`: no namespace, so class names are taken as given. */
  method DefaultDispatcher() returns (d: Dispatcher)
    ensures d.resNamespace == "" && d.parser.None? && d.params.None? && d.reflectionMethod.None?
  {
    d := new Dispatcher();
  }
}
