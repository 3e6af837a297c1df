/**
 * Parameter binding (Dispatcher.php lines 74-106): each declared parameter whose
 * metadata names a `Source` is looked up in the posted body, the query string or
 * the path residue, coerced to its declared type and stored under its name.
 */
module Binding {
  import opened Wrappers
  import opened PhpStrings
  import opened RequestValues

  /**
   * One entry of the annotation parser's parameter metadata: the parameter's
   * name, the first `Source` annotation if there is one, and the declared type.
   */
  datatype ParamMeta = ParamMeta(name: string, source: Option<string>, typ: string)

  /** The parser returns a PHP array keyed by parameter name, so its names are distinct. */
  predicate DistinctNames(meta: seq<ParamMeta>)
  {
    forall i, j :: 0 <= i < j < |meta| ==> meta[i].name != meta[j].name
  }

  /** `$this->params`: a PHP array from parameter name to coerced value, in insertion order. */
  type Params = seq<(string, Value)>

  /** `settype($src, $type)`, which the model leaves uninterpreted. */
  type Coercion = (Value, string) -> Value

  /** The `switch` on the first segment of a source: POST, GET, PATH, or null for anything else. */
  function Root(head: string, post: map<string, Value>, get: map<string, Value>, residue: seq<string>): (r: Value)
    ensures r != Null <==> head == "POST" || head == "GET" || head == "PATH"
  {
    if head == "POST" then Dict(post)
    else if head == "GET" then Dict(get)
    else if head == "PATH" then PathValue(residue)
    else Null
  }

  /** Where a dotted source expression leads: its root, walked by the remaining segments. */
  function SourceValue(source: string, post: map<string, Value>, get: map<string, Value>, residue: seq<string>): Value
  {
    var p := Split(source, '.');
    Walk(Root(p[0], post, get, residue), p[1..])
  }

  /** What one metadata entry contributes: nothing, or its source's value coerced to its type. */
  function BindOne(pm: ParamMeta, post: map<string, Value>, get: map<string, Value>, residue: seq<string>, coerce: Coercion): Option<Value>
  {
    if pm.source.None? then None
    else
      var v := SourceValue(pm.source.value, post, get, residue);
      if v == Null then None else Some(coerce(v, pm.typ))
  }

  /** The `params` array after the `foreach` has visited every entry of `meta`. */
  function BindParams(meta: seq<ParamMeta>, post: map<string, Value>, get: map<string, Value>, residue: seq<string>, coerce: Coercion): Params
    decreases |meta|
  {
    if meta == [] then []
    else
      var last := meta[|meta| - 1];
      var init := BindParams(meta[..|meta| - 1], post, get, residue, coerce);
      match BindOne(last, post, get, residue, coerce)
      case None => init
      case Some(v) => init + [(last.name, v)]
  }

  /** The PHP array read `$params[$name]`. */
  function Get(params: Params, name: string): Option<Value>
  {
    if params == [] then None
    else if params[|params| - 1].0 == name then Some(params[|params| - 1].1)
    else Get(params[..|params| - 1], name)
  }

  /** The declared parameter names, in declaration order. */
  function Names(meta: seq<ParamMeta>): (r: seq<string>)
    ensures |r| == |meta| && forall i :: 0 <= i < |meta| ==> r[i] == meta[i].name
  {
    seq(|meta|, i requires 0 <= i < |meta| => meta[i].name)
  }

  /** The position of the entry declaring `name`. */
  function NameIndex(meta: seq<ParamMeta>, name: string): (j: nat)
    requires name in Names(meta)
    ensures j < |meta| && meta[j].name == name
  {
    if meta[|meta| - 1].name == name then |meta| - 1
    else
      assert Names(meta) == Names(meta[..|meta| - 1]) + [meta[|meta| - 1].name];
      NameIndex(meta[..|meta| - 1], name)
  }

  lemma NameIndexOf(meta: seq<ParamMeta>, j: nat)
    requires DistinctNames(meta)
    requires j < |meta|
    ensures meta[j].name in Names(meta) && NameIndex(meta, meta[j].name) == j
  {
    assert Names(meta)[j] == meta[j].name;
  }

  /** A parameter whose source starts with anything but POST, GET or PATH is never bound. */
  lemma UnknownRootUnbound(pm: ParamMeta, post: map<string, Value>, get: map<string, Value>, residue: seq<string>, coerce: Coercion)
    requires pm.source.Some?
    requires var head := Split(pm.source.value, '.')[0]; head != "POST" && head != "GET" && head != "PATH"
    ensures BindOne(pm, post, get, residue, coerce).None?
  {
    WalkNull(Split(pm.source.value, '.')[1..]);
  }

  /**
   * A source `ROOT.k1.….kn` with a valid root binds exactly when each key is
   * present (and not null) at its level; the bound value is the coerced end of the walk.
   */
  lemma BindOneIff(pm: ParamMeta, post: map<string, Value>, get: map<string, Value>, residue: seq<string>, coerce: Coercion)
    requires pm.source.Some?
    ensures var p := Split(pm.source.value, '.');
            var root := Root(p[0], post, get, residue);
            var keys := p[1..];
            BindOne(pm, post, get, residue, coerce).Some? <==>
              root != Null && forall i :: 0 <= i < |keys| ==> Lookup(Walk(root, keys[..i]), keys[i]).Some?
    ensures var p := Split(pm.source.value, '.');
            BindOne(pm, post, get, residue, coerce).Some? ==>
              BindOne(pm, post, get, residue, coerce).value == coerce(Walk(Root(p[0], post, get, residue), p[1..]), pm.typ)
  {
    var p := Split(pm.source.value, '.');
    WalkFoundIff(Root(p[0], post, get, residue), p[1..]);
  }

  /** `PATH.i` selects the i-th residue segment, and finds nothing past the end. */
  lemma {:induction false} PathSource(i: nat, post: map<string, Value>, get: map<string, Value>, residue: seq<string>)
    ensures SourceValue("PATH." + Decimal(i), post, get, residue) ==
            if i < |residue| then Str(residue[i]) else Null
  {
    var key := Decimal(i);
    assert forall k :: 0 <= k < |key| ==> key[k] != '.' by {
      assert IsDigits(key);
    }
    assert Join(["PATH", key], '.') == "PATH." + key;
    SplitJoin(["PATH", key], '.');
    var p := Split("PATH." + key, '.');
    assert p[0] == "PATH" && p[1..] == [key];
    var v := PathValue(residue);
    assert Root(p[0], post, get, residue) == v;
    ListLookupDecimal(v.items, i);
    if i < |residue| {
      assert v.items[i] == Str(residue[i]);
      assert Lookup(v, key) == Some(Str(residue[i]));
      assert Walk(v, [key]) == Walk(Str(residue[i]), []);
    } else {
      assert Lookup(v, key) == None;
    }
  }

  /** Binding never yields more entries than there are metadata entries. */
  lemma {:induction false} BindLength(meta: seq<ParamMeta>, post: map<string, Value>, get: map<string, Value>, residue: seq<string>, coerce: Coercion)
    ensures |BindParams(meta, post, get, residue, coerce)| <= |meta|
    decreases |meta|
  {
    if meta != [] {
      BindLength(meta[..|meta| - 1], post, get, residue, coerce);
    }
  }

  /**
   * Every bound key is the name of a metadata entry, and keys appear in the
   * order their entries are declared (so no key appears twice).
   */
  lemma {:induction false} BindKeysInOrder(meta: seq<ParamMeta>, post: map<string, Value>, get: map<string, Value>, residue: seq<string>, coerce: Coercion)
    requires DistinctNames(meta)
    ensures forall k :: 0 <= k < |BindParams(meta, post, get, residue, coerce)| ==>
              BindParams(meta, post, get, residue, coerce)[k].0 in Names(meta)
    ensures forall k1, k2 :: 0 <= k1 < k2 < |BindParams(meta, post, get, residue, coerce)| ==>
              NameIndex(meta, BindParams(meta, post, get, residue, coerce)[k1].0) <
              NameIndex(meta, BindParams(meta, post, get, residue, coerce)[k2].0)
    ensures forall k1, k2 :: 0 <= k1 < k2 < |BindParams(meta, post, get, residue, coerce)| ==>
              BindParams(meta, post, get, residue, coerce)[k1].0 != BindParams(meta, post, get, residue, coerce)[k2].0
    decreases |meta|
  {
    if meta != [] {
      var init := meta[..|meta| - 1];
      var last := meta[|meta| - 1];
      BindKeysInOrder(init, post, get, residue, coerce);
      var bi := BindParams(init, post, get, residue, coerce);
      var b := BindParams(meta, post, get, residue, coerce);
      assert Names(meta) == Names(init) + [last.name];
      // names found in the prefix keep their index in the whole list
      forall k | 0 <= k < |bi|
        ensures bi[k].0 in Names(meta)
        ensures NameIndex(meta, bi[k].0) == NameIndex(init, bi[k].0) < |meta| - 1
      {
        var j := NameIndex(init, bi[k].0);
        assert meta[j].name == bi[k].0;
        assert last.name != bi[k].0;
      }
      if b != bi {
        assert b == bi + [(last.name, BindOne(last, post, get, residue, coerce).value)];
        NameIndexOf(meta, |meta| - 1);
        forall k1, k2 | 0 <= k1 < k2 < |b|
          ensures NameIndex(meta, b[k1].0) < NameIndex(meta, b[k2].0)
        {
          if k2 < |bi| {
            assert b[k1] == bi[k1] && b[k2] == bi[k2];
          } else {
            assert b[k1] == bi[k1] && b[k2].0 == last.name;
            assert NameIndex(meta, b[k1].0) < |meta| - 1;
          }
        }
      }
    }
  }

  /**
   * Per-parameter independence: the value bound under a declared name is what
   * that name's own entry yields, whatever the other entries do; and a name no
   * entry declares is never bound.
   */
  lemma {:induction false} BindLookup(meta: seq<ParamMeta>, post: map<string, Value>, get: map<string, Value>, residue: seq<string>, coerce: Coercion, name: string)
    requires DistinctNames(meta)
    ensures Get(BindParams(meta, post, get, residue, coerce), name) ==
            if name in Names(meta)
            then BindOne(meta[NameIndex(meta, name)], post, get, residue, coerce)
            else None
    decreases |meta|
  {
    if meta != [] {
      var init := meta[..|meta| - 1];
      var last := meta[|meta| - 1];
      BindLookup(init, post, get, residue, coerce, name);
      var bi := BindParams(init, post, get, residue, coerce);
      var b := BindParams(meta, post, get, residue, coerce);
      if b != bi {
        assert b[..|b| - 1] == bi;
      }
      assert Names(meta) == Names(init) + [last.name];
      if last.name != name {
        if name in Names(meta) {
          var j := NameIndex(meta, name);
          assert init[j].name == name;
          NameIndexOf(init, j);
          NameIndexOf(meta, j);
        }
      } else {
        NameIndexOf(meta, |meta| - 1);
        forall j | 0 <= j < |init| ensures init[j].name != name {
          assert meta[j].name != meta[|meta| - 1].name;
        }
        if b == bi {
          BindNotDeclared(init, post, get, residue, coerce, name);
        }
      }
    }
  }

  lemma {:induction false} BindNotDeclared(meta: seq<ParamMeta>, post: map<string, Value>, get: map<string, Value>, residue: seq<string>, coerce: Coercion, name: string)
    requires forall j :: 0 <= j < |meta| ==> meta[j].name != name
    ensures Get(BindParams(meta, post, get, residue, coerce), name).None?
    decreases |meta|
  {
    if meta != [] {
      var b := BindParams(meta, post, get, residue, coerce);
      var bi := BindParams(meta[..|meta| - 1], post, get, residue, coerce);
      if b != bi { assert b[..|b| - 1] == bi; }
      BindNotDeclared(meta[..|meta| - 1], post, get, residue, coerce, name);
    }
  }

  /** An entry without a `Source` is omitted from the parameters, not given a default. */
  lemma NoSourceUnbound(meta: seq<ParamMeta>, post: map<string, Value>, get: map<string, Value>, residue: seq<string>, coerce: Coercion, j: nat)
    requires DistinctNames(meta)
    requires j < |meta| && meta[j].source.None?
    ensures Get(BindParams(meta, post, get, residue, coerce), meta[j].name).None?
  {
    BindLookup(meta, post, get, residue, coerce, meta[j].name);
    NameIndexOf(meta, j);
  }
}
