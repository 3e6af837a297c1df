# milux/add request dispatcher, modelled in Dafny

This project models the dispatcher of the milux/add RPC-over-HTTP framework
(`src/milux/add/Dispatcher.php`). A dispatcher is built with an optional class
namespace. Its `dispatch` call does four things:

- It takes `PATH_INFO`, trims `/` from both ends and explodes it on `/`.
- The first segment, prefixed with the namespace, names the module class. The
  second segment names the method. When that segment is missing, `""` or `"0"`,
  the lower-cased request method is used instead.
- It checks, in this order, that the class exists (404), that it implements
  `ICallable` (400) and that it has the method (400).
- It walks each parameter's dotted `Source` annotation (`POST.user.id`,
  `GET.q`, `PATH.0`) through `$_POST`, `$_GET` or the remaining path segments.
  Each value found is coerced and stored in `params`. The call is rejected (400)
  unless the method is public, static and gets at least its number of required
  parameters. On success the request data may be cleared.

`invoke` then calls the method with `params` and no receiver.

Modules, one per component:

- `PhpStrings` (`php_strings.dfy`): the PHP built-ins the code calls: `trim`,
  `explode`, `strtolower`, `empty`, and decimal keys.
- `RequestValues` (`request_values.dfy`): request data as PHP values, the
  `isset($src[$k])` step and the dotted walk.
- `Binding` (`binding.dfy`): parameter metadata and the binding of `params`.
- `DispatchErrors` (`dispatch_exception.dfy`): the exception, a message and a code.
- `Routing` (`routing.dfy`): namespace normalisation, route parsing, the class
  registry and the three target checks.
- `Dispatching` (`dispatcher.dfy`): the `Dispatcher` and `Request` classes,
  and `Outcome`, the whole decision of `dispatch` as one value.
- `Scenarios` (`scenarios.dfy`): concrete requests worked through the model.

The superglobals are fields of a `Request` object: `$_SERVER['PATH_INFO']`,
`$_SERVER['REQUEST_METHOD']`, `$_GET`, `$_POST` and `$_REQUEST`. `Dispatch`
updates that object in place. PHP reflection and `class_exists` are replaced by
a `Registry`. It maps a lower-cased class name to whether the class is
`ICallable` and to its methods. Each method has its visibility, its static flag,
its required-parameter count and the annotation parser's metadata. `settype` is
the uninterpreted `coerce` parameter. A thrown exception is returned as
`Some(e)`. `e` is a `DispatchException` with one constructor per throw site;
`Message()` and `Code()` give the exact message text and status code.

`Dispatch` is one PHP method. The model splits its body into three methods, at
the source's own block boundaries, to keep each proof small:

- `FindTarget`: lines 45-67, the route and the three checks; it calls
  `SplitRoute` for lines 45-52, the `array_shift`s on `$pathInfo`.
- `Dispatcher.CollectParams`: lines 74-106, the `foreach` that fills `params`
  in place.
- `Scan`: lines 91-99, the inner `while` loop.

Three details of `Dispatcher.php` that the model keeps as written:

- The 404 message at line 56 names the resolved module (`Module "…" not found`),
  not the raw `PATH_INFO`. Only the three 400 messages (lines 62, 66 and 112-113)
  include `PATH_INFO`.
- `dispatch` throws only the codes 404 and 400; it never raises 403. The model
  has no 403.
- `reflectionMethod`, `parser` and `params` are assigned at lines 69-74, before
  the legality check at lines 110-113 can throw. A caller that catches that
  exception and then calls `invoke` still hands over the rejected call.
  `Dispatch`'s contract states this state.

`__construct($resNamespace = null)` (line 29) and `dispatch($clearRequest = true)`
(line 43) have default arguments; so do the model's `Dispatcher` constructor,
whose namespace defaults to `None` (giving the namespace `''`), and `Dispatch`,
whose `clearRequest` parameter defaults to `true`.

In PHP, class and method names are case-insensitive. The class loader also
ignores one leading backslash, so `Dispatcher('')` gives the namespace `\`,
which still resolves. The model captures both through `ClassKey` and
`FindMethod`.

## Model

| member | source | states |
|---|---|---|
| Routing.NormalizeNamespace | src/milux/add/Dispatcher.php:29-36 | no namespace gives `''`; a given one ends with `\`, starts with the given text and is at most one character longer; one already ending with `\` is kept as is |
| Routing.NormalizeIdempotent | src/milux/add/Dispatcher.php:31-33 | normalising an already normalised namespace changes nothing |
| Dispatching.Dispatcher.constructor | src/milux/add/Dispatcher.php:29-36 | the field `resNamespace` is the normalised namespace; `parser`, `params` and `reflectionMethod` start null |
| PhpStrings.TrimLeft | src/milux/add/Dispatcher.php:45 | the result is a suffix of the input, everything removed is `/`, and the result does not start with `/` |
| PhpStrings.TrimRight | src/milux/add/Dispatcher.php:45 | the result is a prefix of the input, everything removed is `/`, and the result does not end with `/` |
| PhpStrings.Trim | src/milux/add/Dispatcher.php:45 | the result is no longer than the input and neither starts nor ends with `/`; `TrimPadded` shows that it removes exactly the `/` padding |
| PhpStrings.TrimPadded | src/milux/add/Dispatcher.php:45 | trimming any number of `/` around a string that has no `/` at either end gives back that string |
| PhpStrings.Split | src/milux/add/Dispatcher.php:45 | `explode` gives at least one piece, no piece contains the separator, and joining the pieces restores the input |
| PhpStrings.SplitJoin | src/milux/add/Dispatcher.php:78 | exploding the join of separator-free pieces gives back exactly those pieces |
| PhpStrings.Lower | src/milux/add/Dispatcher.php:51 | `strtolower` keeps the length, maps each ASCII capital to its small letter and leaves every other character alone; no capital remains |
| PhpStrings.Empty | src/milux/add/Dispatcher.php:50 | `empty($method)` holds for a missing segment, `""` and `"0"`; `RouteOfSegments` shows that exactly these fall back to the request method |
| PhpStrings.LowerDrop | src/milux/add/Dispatcher.php:51 | lower-casing, then dropping the first character, is dropping it, then lower-casing |
| PhpStrings.Decimal | src/milux/add/Dispatcher.php:87 | the decimal rendering of an integer list key is a canonical key (no leading zero) that denotes that integer |
| Routing.ParseRoute | src/milux/add/Dispatcher.php:45-52 | the module name starts with the namespace; an empty `PATH_INFO` gives the bare namespace, the lower-cased verb and no residue; no residue segment contains `/`; the method is either the lower-cased verb or a segment other than `""` and `"0"`; `RouteOfSegments` and `EmptyRoute` give it exactly |
| Routing.RouteOfSegments | src/milux/add/Dispatcher.php:45-52 | for a path made of segments with any `/` padding, the module is namespace + first segment, the method is the second segment unless it is missing, `""` or `"0"` (then the lower-cased verb), and the residue is exactly the segments after those two |
| Routing.EmptyRoute | src/milux/add/Dispatcher.php:45-52 | a path of only slashes names the bare namespace as module, the lower-cased verb as method, and leaves no residue |
| Routing.ClassKey | src/milux/add/Dispatcher.php:55-59 | the key under which a class name is looked up is no longer than the name and holds no capital letter; `ClassKeyIgnoresCase` and `ClassKeyLeadingBackslash` state its meaning |
| Routing.FindClass | src/milux/add/Dispatcher.php:55-59 | `class_exists($module)` and `new \ReflectionClass($module)`: the class stored under the name's `ClassKey`; `ClassKeyIgnoresCase`, `ClassKeyLeadingBackslash` and `DoubleBackslashNotFound` state which names find the same class and which find none |
| Routing.ClassKeyIgnoresCase | src/milux/add/Dispatcher.php:55-59 | two class names that differ only in letter case find the same class |
| Routing.ClassKeyLeadingBackslash | src/milux/add/Dispatcher.php:55-59 | one leading backslash does not change which class a name finds |
| Routing.FindMethod | src/milux/add/Dispatcher.php:65-69 | `hasMethod($method)` and `getMethod($method)`: the method stored under the lower-cased name; `FindMethodIgnoresCase` states that letter case does not matter |
| Routing.FindMethodIgnoresCase | src/milux/add/Dispatcher.php:65-69 | two method names that differ only in letter case find the same method |
| Routing.NamespaceKeyUnfindable | src/milux/add/Dispatcher.php:47-55 | the key of a normalised namespace on its own is empty or ends with `\` |
| Routing.DoubleBackslashNotFound | src/milux/add/Dispatcher.php:47-57 | with a well-formed class table, a module name starting with two backslashes finds no class, since only one leading backslash is ignored |
| Routing.SlashOnlyPathNotFound | src/milux/add/Dispatcher.php:45-57 | with a well-formed class table (class names are lower-cased `ClassKey` renderings, none empty, starting or ending with `\`; method names are lower-cased; each method's parameter names are distinct), a `PATH_INFO` made only of slashes fails with 404 naming the bare namespace |
| Dispatching.SplitRoute | src/milux/add/Dispatcher.php:45-52 | the two `array_shift`s give the module, the method and the residue of the parsed route |
| Routing.Resolve | src/milux/add/Dispatcher.php:45-69 | a missing class gives 404 before any other check; an existing class that is not `ICallable` gives the 400 "no module" error whatever method is asked for; a callable class without the method gives the 400 "method not found" error; success exactly when all three pass, with the registry's method; a failure has code 404 exactly when the class is missing |
| Dispatching.FindTarget | src/milux/add/Dispatcher.php:45-67 | the route split and the three checks, done step by step, give the target that `Resolve` specifies or the exception it names |
| DispatchErrors.DispatchException.Code | src/milux/add/Dispatcher.php:56-66 | the code is 404 exactly for the missing module class, and 400 for every other exception |
| DispatchErrors.DispatchException.Message | src/milux/add/Dispatcher.php:56-113 | the exact message text of each throw site; `MessageEnds` states what each 400 message ends with |
| DispatchErrors.DispatchException.MessageEnds | src/milux/add/Dispatcher.php:56-66 | every 400 message ends with the raw `PATH_INFO`; the 404 message contains the resolved module name |
| Binding.Root | src/milux/add/Dispatcher.php:79-89 | the root is non-null exactly for the first segments `POST`, `GET` and `PATH` |
| Binding.UnknownRootUnbound | src/milux/add/Dispatcher.php:79-104 | a source whose first segment is not `POST`, `GET` or `PATH` never binds |
| RequestValues.PathValue | src/milux/add/Dispatcher.php:87 | the residue becomes a list of the same length whose i-th item is the i-th segment |
| RequestValues.StringOffset | src/milux/add/Dispatcher.php:93 | a string offset that is found lies inside the string; `StringLookupOnlyNumeric`, `StringLookupLeadingZero`, `StringLookupDecimal` and `StringLookupFromEnd` state which keys select which offset |
| RequestValues.Lookup | src/milux/add/Dispatcher.php:93-94 | `isset` never yields null; nothing can be looked up in null; in an array a key is found exactly when it is present with a non-null value, and that value is returned; a list is hit only by an index key and yields one of its items; a string offset yields a one-character string made of a character of that string |
| RequestValues.StringLookupDecimal | src/milux/add/Dispatcher.php:93-94 | offset `i` of a string is found under the key `"i"` exactly when `i` is inside the string, and yields the one-character string at `i` |
| RequestValues.StringLookupOnlyNumeric | src/milux/add/Dispatcher.php:93-94 | a key that finds something in a string is a digit string or a minus sign followed by digits; a digit key then selects the in-range offset it denotes |
| RequestValues.StringLookupLeadingZero | src/milux/add/Dispatcher.php:93-94 | a leading zero on a digit key does not change what it finds in a string, so `"01"` finds what `"1"` finds |
| RequestValues.StringLookupFromEnd | src/milux/add/Dispatcher.php:93-94 | the key `"-n"` with `n >= 1` finds the `n`-th character from the end of a string exactly when the string has at least `n` characters |
| RequestValues.ListLookupDecimal | src/milux/add/Dispatcher.php:87-94 | offset `i` of a list is found under the key `"i"` when it exists and is not null, and is absent otherwise |
| RequestValues.ListLookupOnlyDecimal | src/milux/add/Dispatcher.php:87-94 | every key that finds something in a list is the canonical decimal rendering of an in-range offset, and finds the item there |
| RequestValues.Walk | src/milux/add/Dispatcher.php:91-99 | the dotted walk, stated by `WalkFoundIff`, `WalkAppend` and `WalkNull` |
| RequestValues.WalkNull | src/milux/add/Dispatcher.php:95-97 | once the walk has reached null it stays null |
| RequestValues.WalkAppend | src/milux/add/Dispatcher.php:91-99 | walking `a + b` is walking `a`, then `b` from where that ended |
| RequestValues.WalkFoundIff | src/milux/add/Dispatcher.php:91-101 | a walk ends on a value exactly when the root is non-null and every key is present and non-null at the level reached before it |
| Dispatching.Scan | src/milux/add/Dispatcher.php:91-99 | the `while` loop of `array_shift` and `isset` steps ends on the walk of the root by the keys |
| Binding.SourceValue | src/milux/add/Dispatcher.php:78-99 | the value a `Source` annotation reaches: its root walked by its remaining segments; `PathSource` and `BindOneIff` state it |
| Binding.BindOne | src/milux/add/Dispatcher.php:77-104 | the binding of one parameter, stated by `BindOneIff`, `NoSourceUnbound` and `UnknownRootUnbound` |
| Binding.BindParams | src/milux/add/Dispatcher.php:74-106 | the `params` array the `foreach` builds, stated by `BindLookup`, `BindKeysInOrder`, `BindNotDeclared` and `BindLength` |
| Binding.BindOneIff | src/milux/add/Dispatcher.php:77-104 | a parameter with a source binds exactly when its root is valid and every later segment is a present key at its level; the bound value is the coerced end of the walk |
| Binding.PathSource | src/milux/add/Dispatcher.php:86-99 | `PATH.i` reads residue segment `i`, and finds nothing past the end of the residue |
| Binding.NoSourceUnbound | src/milux/add/Dispatcher.php:75-77 | a parameter without a `Source` never appears in `params`; it is omitted, not defaulted |
| Binding.BindLookup | src/milux/add/Dispatcher.php:74-106 | the value stored under a declared name is what that name's own entry yields, whatever the other entries do; an undeclared name is never stored |
| Binding.BindNotDeclared | src/milux/add/Dispatcher.php:103 | only declared names are ever written into `params` |
| Binding.BindKeysInOrder | src/milux/add/Dispatcher.php:74-106 | every key of `params` is a declared name, the keys follow declaration order, and no key repeats, so `count($this->params)` is the length of `params` |
| Binding.BindLength | src/milux/add/Dispatcher.php:74-106 | `params` never has more entries than the metadata |
| Dispatching.Dispatcher.CollectParams | src/milux/add/Dispatcher.php:74-106 | `params` is reset and filled in place to the binding of the metadata in declaration order |
| Dispatching.Invocable | src/milux/add/Dispatcher.php:110-111 | the legality test of lines 110-111; `Outcome` states which calls it rejects |
| Dispatching.Outcome | src/milux/add/Dispatcher.php:43-119 | a failed target check is thrown as it is; otherwise the call is rejected with the 400 "not public static" error exactly when the method is not static, not public or has fewer bound parameters than required, and is accepted with exactly the bound parameters, never more than the method declares |
| Dispatching.OutcomeKeys | src/milux/add/Dispatcher.php:74-111 | with a well-formed class table, an accepted call's parameters are declared names of the method, in declaration order, with no name twice |
| Dispatching.Dispatcher.Dispatch | src/milux/add/Dispatcher.php:43-120 | throws exactly what `Outcome` decides; a failed target check assigns no field; once the method is found, `reflectionMethod`, `parser` and `params` hold the method, its metadata and its binding (rebuilt from the request as it was, not from earlier state), even when the legality check then throws; `$_GET`, `$_POST` and `$_REQUEST` are emptied exactly when `clearRequest` is set and nothing was thrown, and are otherwise unchanged; the namespace, `PATH_INFO` and the request method are never changed |
| Dispatching.Dispatcher.Invoke | src/milux/add/Dispatcher.php:126-128 | the resolved method is called with no receiver on the bound values in their order, and only when a method and parameters were set |
| Scenarios.DefaultDispatcher | src/milux/add/Dispatcher.php:29-36 | `new Dispatcher()` has the namespace `''` and no method, parser or parameters yet |
| Scenarios.PathZero | src/milux/add/Dispatcher.php:86-104 | `PATH.0` with a one-segment residue binds that segment, coerced to the declared type |
| Scenarios.PostUserId | src/milux/add/Dispatcher.php:80-104 | `POST.user.id` binds the coerced `"42"` from `{"user": {"id": "42"}}`, and nothing when `user` is absent |
| Scenarios.CatalogRoute | src/milux/add/Dispatcher.php:45-52 | `/catalog/find/42` in namespace `shop\` is module `shop\catalog`, method `find`, residue `["42"]` |
| Scenarios.CatalogResolve | src/milux/add/Dispatcher.php:45-69 | `/catalog/find/42` resolves to the registry's `find` method of the callable class `shop\catalog` |
| Scenarios.CatalogFind | src/milux/add/Dispatcher.php:43-114 | that request to a public static `find` taking `id` from `PATH.0` is accepted with `id` bound to the coerced `"42"` when at most one parameter is required, and is rejected with 400 when two are required |

## Left out

- `DispatchException::sendErrorHeaders` only emits HTTP headers, which is I/O. The exception is a datatype with a message and a code.
- PHP reflection, `class_exists` and autoloading are replaced by the `Registry`. The model assumes the interface `\milux\add\ICallable` exists; if it were missing, `implementsInterface` would throw.
- `AnnotationParser` is not part of this model. Its output is the input `paramMeta`: one entry per parameter, holding its name, its first `Source` value (later ones are ignored, as in the code) and its `type`. The model assumes the parser always provides a `type`.
- `settype` is the uninterpreted `coerce`. PHP 8 throws a `ValueError` for an unknown type name; the model does not capture that.
- `invoke`'s `invokeArgs` and the invoked method are foreign calls. `Invoke` only states what they receive. Values are passed positionally, as in PHP 7; PHP 8 treats string keys as named arguments. A non-static method invoked without a receiver fails inside reflection, which is not modelled.
- `getAnnotationParser` is a plain getter. The model reads the `parser` field directly.
- An unset `PATH_INFO` reads as null, and `trim(null)` is `""`. The model takes the path as a string, so that case is the empty string.
- RequestValues.StringOffset: accepts digit keys (leading zeros allowed) and a minus sign followed by digits. PHP's numeric-string rules also accept leading whitespace, a `+` sign and, since PHP 8, trailing whitespace (`isset($s["1 "])` holds); those keys are treated as absent here. Strings are modelled as sequences of characters, while PHP string offsets and `strlen` count bytes; the two agree only on ASCII data. For a UTF-8 `"é"` (bytes `C3 A9`), PHP finds offset `1` and yields `"\xA9"`, whereas the model finds nothing, so the parameter is left out and `Outcome` may reject the call. Keys of the form `-n` likewise count back in characters, not bytes.
- Binding.BindParams: a parameter name that occurs twice in the metadata would appear twice in `params`, where PHP would overwrite the first entry. Such metadata cannot arise, because the parser's metadata is an array keyed by parameter name; `ValidRegistry` states that, and `OutcomeKeys` uses it.
- Request data holds only strings, arrays and null. PHP fills `$_GET` and `$_POST` with nothing else.
- PhpStrings.Lower: models the ASCII `strtolower` of the "C" locale. Before PHP 8.2 the result depended on the locale.
