# Strike Di service container, modelled in Dafny

This project models the resolution engine of the Strike Di dependency
injection library. It covers two classes. `Container` keeps four maps keyed by
lower-cased id: instances, aliases, definitions and parameters. It resolves
`get($id)` by following at most one alias hop, checking visibility, returning
a stored instance or building one, and storing the built instance when the
definition is shared. `Definition` is the recipe for one service: class name,
constructor arguments, properties, calls, and the `public` and `share` flags.

The model is purely functional. A `Container` is an immutable record holding
the four maps, a fresh-handle counter and an effect trace. Every operation
returns a new record. `get` returns an `Outcome`: a result (`Ok(value)` or
`Err(NotDefined | NotAccessible | OutOfFuel)`) paired with the next container.

- Objects are `Obj(handle)` values. `Self` is the container itself, which is
  stored under `service_container` when the container is created.
  `Built(n)` is an object the container instantiated when its counter stood
  at `n`. `Foreign(n)` is an object made by application code and handed in
  with `set`. Nothing stops a caller from passing `set` a `Built` handle the
  container has not reached yet, so freshness is proved under an invariant:
  `Validity.Valid` says no `Built` handle the container knows about is at or
  above the counter. Every operation keeps it, as long as what the caller
  stores mentions only objects already built. `Validity.Numbered` says the
  trace constructs exactly `Built(0)`, `Built(1)`, ... in order, so on a
  container that only the operations built, `Built(n)` is the n-th object
  instantiated.
- Reflection-based instantiation takes the next `Built` handle and appends a
  `Constructed(handle, class, arguments)` event to the trace. Property
  assignments and method calls are appended after it, in declaration order.
  Call arguments get no substitution.
- The argument mini-language: `@id` refers to a service and `%name%` refers to
  a parameter. `Classify` reads an argument, and `RewriteArgument`,
  `RewriteArguments` and `Generate` rewrite the arguments and build the
  instance. These three are mutually recursive.
- The source has no bound on nested `@` references, so a cycle among
  definitions recurses until the stack is exhausted. In the model, each
  nested reference consumes one unit of a `fuel` argument. Running out gives
  `Err(OutOfFuel)`, which stands in for that exhaustion.
  `GenerationLemmas.GenerateFuelMonotone` shows that the bound only ever cuts
  a build short.

Modules: `Ids` (ASCII lower-casing of ids), `Values` (PHP values and the
boolean cast), `Definitions` (src/Definition.php), `Containers`
(src/Container.php), and four modules of properties: `ContainerLemmas`,
`GenerationLemmas`, `Validity` and `Scenarios`.

Two points about nested references, both following src/Container.php:114-117:

- A nested `@Logger` argument is built afresh from the `logger` definition.
  It is never the instance that `get("Logger")` returns or stores. A
  reference never reads the instance map, so even when `Logger` is shared
  and already stored, the argument is a second, different logger
  (`Scenarios.ReferenceIgnoresStoredInstance`).
- A definition's `share` flag also has no effect on nested references. A
  nested instance is never stored.

## Model

| member | source | states |
|---|---|---|
| Ids.Lower | src/Container.php:62 | ids are normalised letter by letter with ASCII lower-casing; the result has no upper-case letter and keeps the length |
| Ids.LowerChar | src/Container.php:62 | only `A`-`Z` change, each to its lower-case letter; the result is never upper case |
| Ids.LowerCharSameIff | src/Container.php:62 | two characters lower-case to the same character exactly when they are equal or are the two cases of one ASCII letter |
| Ids.SameKeyIffEqualIgnoringCase | src/Container.php:62 | two ids normalise to the same key exactly when they have the same length and agree letter by letter up to ASCII case, a relation defined without lower-casing (both directions) |
| Ids.LowerIdempotent | src/Container.php:172 | normalising an already normalised id (such as a stored alias target) changes nothing |
| Values.Truthy | src/Definition.php:160 | PHP's boolean cast: booleans keep their value; a value is false exactly when it is null, `false`, 0, "", "0" or the empty array, so every other value, objects included, is true |
| Definitions.New | src/Definition.php:63-71 | a new definition keeps the given class and arguments (empty when omitted), has no properties and no calls, and is public and shared |
| Definitions.SetClass | src/Definition.php:78-91 | the class getter returns the name set, unvalidated; every other field is unchanged |
| Definitions.SetArguments | src/Definition.php:98-111 | the arguments getter returns the list set; every other field is unchanged |
| Definitions.SetProperties | src/Definition.php:118-131 | the properties getter returns the list set; every other field is unchanged |
| Definitions.SetCalls | src/Definition.php:138-151 | the calls getter returns the list set; every other field is unchanged |
| Definitions.SetPublic | src/Definition.php:158-171 | the public getter returns the boolean cast of the value set; every other field is unchanged |
| Definitions.SetShare | src/Definition.php:178-191 | the share getter returns the boolean cast of the value set; every other field is unchanged |
| Containers.NewContainer | src/Container.php:46-49 | a new container holds exactly one instance, itself under `service_container`, and no aliases, definitions or parameters |
| Containers.Set | src/Container.php:153-160 | stores the instance under the lower-cased id, overwriting; aliases, definitions and parameters are unchanged |
| Containers.SetAlias | src/Container.php:170-175 | maps the lower-cased alias to the lower-cased target; nothing else changes |
| Containers.GetParameter | src/Container.php:184-193 | the value stored under the lower-cased id, or null when there is none |
| Containers.SetParameter | src/Container.php:203-210 | stores the value under the lower-cased id; nothing else changes |
| Containers.Resolve | src/Container.php:62-68 | the key of an id is its lower-cased form when that is not an alias, and otherwise the alias's stored target, with no further hop |
| Containers.GetDefinition | src/Container.php:221-234 | succeeds exactly when the alias-resolved key has a definition and returns that definition; otherwise fails "not defined" |
| Containers.SetDefinition | src/Container.php:244-251 | stores the definition under the lower-cased id; instances, aliases and parameters are unchanged |
| Containers.Classify | src/Container.php:113-121 | a string starting with `@` is a service reference to the rest of the string (this test wins); otherwise a string longer than two characters wrapped in `%` is a parameter reference to the inner text; everything else is a literal |
| Containers.RewriteArgument | src/Container.php:113-121 | literals are unchanged, parameter references become the parameter value, service references become an object built during this call, whose construction from the referenced definition and its set-up the trace ends with; only a service reference can fail or change the container, and never with "not accessible" |
| Containers.RewriteArguments | src/Container.php:111-123 | the rewritten list has the same length and each element is the rewriting of the original one; the objects substituted for references are all built during this call, distinct, in the order of the arguments; the instance map and configuration are untouched (when it can fail: `GenerationLemmas.RewriteArgumentsFailOnlyOnReference`) |
| Containers.PropertyEvents | src/Container.php:130-134 | one assignment event per property, in order, on the new object |
| Containers.CallEvents | src/Container.php:136-140 | one call event per declared call, in order, with the arguments exactly as declared |
| Containers.Generate | src/Container.php:104-143 | a successful build returns a `Built` object whose handle is at or above the counter it started from and below the one it leaves; the trace ends with its construction from the rewritten arguments, then its properties, then its calls; the instance map and configuration are untouched (when it can fail: `GenerationLemmas.GenerateFailsOnlyOnReference`) |
| Containers.Get | src/Container.php:60-95 | configuration is unchanged; the result is "not accessible" exactly for a direct lookup of a non-public definition; such a lookup changes nothing; a lookup that is not refused and whose key has a stored instance changes nothing and returns that instance; without a definition it returns the stored instance or fails "not defined"; otherwise it returns the build's result and container, with the built object stored under the resolved key exactly when the build succeeded and the definition is shared |
| ContainerLemmas.CaseInsensitiveIds | src/Container.php:62-68 | ids equal up to ASCII case give the same `get`, `getDefinition` and `getParameter` results and the same effect for every setter, including `setAlias` with the id on either side and any other id on the other |
| ContainerLemmas.SetDefinitionThenGetDefinition | src/Container.php:244-248 | after `setDefinition("Foo", d)`, `getDefinition` of any case variant of the id returns `d` when the id is not an alias |
| ContainerLemmas.InstanceIsNoDefinition | src/Container.php:221-234 | an id that holds only a `set` instance still has no definition |
| ContainerLemmas.GetWithoutDefinition | src/Container.php:70-76 | with no definition, `get` returns the stored instance or fails "not defined", and changes nothing |
| ContainerLemmas.NewContainerResolvesItself | src/Container.php:46-49 | `get("service_container")` on a new container, in any letter case, returns the container |
| ContainerLemmas.SetThenGet | src/Container.php:153-160 | an instance stored with `set` under an undefined, unaliased id is what `get` returns |
| ContainerLemmas.AliasIsOneHop | src/Container.php:65-68 | an alias resolves to its target key; if that key is itself an alias it is not followed further |
| ContainerLemmas.AliasChainNotFollowed | src/Container.php:225-227 | with `a -> b -> real`, `b` reaches the definition and `a` fails "not defined" in both `get` and `getDefinition` |
| ContainerLemmas.PrivateDirectRefused | src/Container.php:80-82 | a direct lookup of a non-public definition fails "not accessible", even when an instance is stored under it |
| ContainerLemmas.PrivateViaAlias | src/Container.php:63-68 | reached through an alias, a non-public definition is never refused; it yields the stored instance or a new build |
| ContainerLemmas.CacheHitBuildsNothing | src/Container.php:84-86 | a stored instance for a defined, accessible id is returned and the container is unchanged, so nothing is built |
| ContainerLemmas.SharedGetIdempotent | src/Container.php:88-94 | after one successful lookup of a shared service or plain instance, a second lookup returns the same value and changes nothing |
| ContainerLemmas.SharedGetCaches | src/Container.php:90-92 | a successful build of a shared service is stored under its resolved key |
| ContainerLemmas.UnsharedGetFresh | src/Container.php:88-94 | two successive lookups of an unshared service yield different objects and store nothing |
| ContainerLemmas.RedefinitionKeepsStoredInstance | src/Container.php:244-251 | redefining an id that already has a stored instance, with a public definition and an id that is not an alias, keeps `get` returning that instance and changes nothing else |
| GenerationLemmas.ClassifyServiceReference | src/Container.php:114-115 | `@` followed by any id reads as a reference to that id |
| GenerationLemmas.ClassifyParameterReference | src/Container.php:118-119 | `%name%` with a non-empty name reads as a reference to that parameter |
| GenerationLemmas.ParameterSubstitution | src/Container.php:118-120 | a parameter reference is replaced by the parameter's value, or by null when unset, and changes nothing |
| GenerationLemmas.ReferenceNeedsDefinition | src/Container.php:114-117 | a reference to an id without a definition fails "not defined", even when an instance is stored there |
| GenerationLemmas.ServiceContainerReferenceFails | src/Container.php:116 | so an argument `@service_container` fails "not defined" |
| GenerationLemmas.NestedReferenceBuildsAfresh | src/Container.php:114-117 | a reference builds a new object from the referenced definition, ignoring its public flag, and does not touch the instance map |
| GenerationLemmas.SingleReferenceSubstitution | src/Container.php:111-127 | with one argument `@b`, whatever `b`'s definition, `b` is built first with one unit of fuel less; the outer service is then constructed on the next handle with `b`'s new object as its only argument, followed by its set-up; if `b` fails to build, so does the outer service, with nothing more constructed |
| GenerationLemmas.ArgumentsBuiltFrom | src/Container.php:112-117 | in any argument list, each `@id`, wherever it stands, is replaced by an object that the trace records as constructed from the class of `id`'s definition |
| GenerationLemmas.GenerateArgumentsBuiltFrom | src/Container.php:111-127 | the constructor of a built object receives, for each `@id` among its arguments, an object constructed from `id`'s class |
| GenerationLemmas.RewriteArgumentsFailOnlyOnReference | src/Container.php:111-123 | rewriting an argument list fails only if the list holds a service reference: literals and parameter references always go through |
| GenerationLemmas.GenerateFailsOnlyOnReference | src/Container.php:104-143 | a build fails only if its definition declares a service reference among its arguments; a definition without one, whatever its literals, parameters, properties and calls, always builds |
| GenerationLemmas.ReferenceSubstitution | src/Container.php:111-127 | with one argument `@b`, where `b` takes no arguments, `b` is built and set up first, then the outer service is built with `b`'s new object as its only argument |
| GenerationLemmas.GenerateFuelMonotone | src/Container.php:117 | a build that did not hit the recursion bound gives the same result and container under any larger bound |
| GenerationLemmas.GenerateIgnoresCacheAndFlags | src/Container.php:104-143 | two containers that differ only in their instance maps and in definitions' public and share flags build the same result and the same trace |
| GenerationLemmas.GenerateIgnoresInstances | src/Container.php:114-117 | replacing the instance map does not change what a build produces |
| Validity.IssuedMonotone | src/Container.php:125-127 | an object issued below one counter value is issued below every larger one, through nested arrays |
| Validity.ValidLater | src/Container.php:125-127 | raising the counter keeps a valid container valid |
| Validity.NewContainerValid | src/Container.php:46-49 | a new container mentions no built object |
| Validity.SettersPreserveValid | src/Container.php:153-251 | `set`, `setParameter` and `setDefinition` keep the invariant when what they store mentions only built objects; `setAlias` always keeps it |
| Validity.GeneratePreservesValid | src/Container.php:104-143 | building keeps the invariant and returns an object below the new counter |
| Validity.GetPreservesValid | src/Container.php:60-95 | `get` keeps the invariant and returns an object below the new counter |
| Validity.BuiltByGetIsNew | src/Container.php:88-94 | on a valid container, an object that `get` builds differs from every stored instance, every parameter value and every declared constructor argument, and no event of the trace is about it |
| Validity.ConstructionsAppend | src/Container.php:125-140 | the constructions recorded in two trace segments are those of the first followed by those of the second |
| Validity.GenerateNumbers | src/Container.php:104-143 | building keeps the numbering: the objects constructed are `Built(0)` up to the counter, in order |
| Validity.OperationsNumber | src/Container.php:46-251 | a new container has constructed nothing, the setters construct nothing, and `get` keeps the numbering |
| Scenarios.PrivateLoggerThroughAlias | src/Container.php:78-94 | a private `Logger` is refused by its own id; through the alias `log` it is built as the first object, constructed as a `Logger` with no arguments, returned and stored under `logger` |
| Scenarios.FetchPlain | src/Container.php:84-94 | `get` of a public, shared service with no arguments, properties or calls, not yet built, returns the next object, constructs it, and stores it under its key |
| Scenarios.FetchReferencing | src/Container.php:88-127 | `get` of a public, shared service whose only argument is `@b`, for such a plain `b`, constructs a new `b` and then the service with it |
| Scenarios.ReferenceIgnoresStoredInstance | src/Container.php:114-117 | after `get(b)` returns and stores object `n` (say `b` is `Logger`), `get(a)` for a service whose only argument is `@b` (say `Cache`) constructs a new `b` as object `n + 1` and passes it, not the stored one, to `a`, which becomes object `n + 2` |

## Left out

- Reflection (`new \ReflectionClass`, `newInstanceArgs`, `newInstance`) is
  modelled as handing out the next fresh handle. Class loading, and
  constructors that throw, are not modelled. A build can only fail on a
  missing nested definition or on the recursion bound, and only at a service
  reference (`GenerationLemmas.GenerateFailsOnlyOnReference`).
- Constructors, property assignments and calls are assumed not to call back
  into the container. In the source they may reach it, through a parameter
  value, a property value or an instance stored with `set`, and call `get`,
  `set` or `setDefinition` in the middle of a build, so that a later
  `getDefinition` in the same argument loop (src/Container.php:116) sees the
  change. The model's builds read one fixed configuration and never touch
  the instance map.
- Property assignment and method calls by name run arbitrary application
  code. Here they are only recorded as trace events. Their effects on the
  objects, and any failure they raise, are not modelled.
- Unbounded recursion on cyclic `@` references is replaced by the `fuel`
  bound and the `OutOfFuel` error. Stack exhaustion is not modelled.
- PHP exception classes and messages are not modelled. The two
  `InvalidArgumentException` messages become `NotDefined` and `NotAccessible`.
- `strtolower` is modelled as ASCII lower-casing. Locale-dependent case
  mapping of other characters is not modelled.
- An empty string argument is a literal. The PHP notice raised by reading
  `$argument[0]` of an empty string is not modelled.
- Constructor arguments are a list. String keys in a PHP argument array
  (named arguments under PHP 8) are not modelled.
- Values: floats and resources are not modelled. PHP arrays are modelled as
  lists (`Arr`), and `properties` as an ordered list of name/value pairs, so
  the uniqueness of PHP array keys is not enforced.
- A `Definition` is a PHP object, handed to `setDefinition` and returned by
  `getDefinition` by reference (src/Container.php:230, 248). Changing it
  afterwards through a setter changes what later `get` calls build. The
  model stores definitions as values, so that aliasing is not modelled: a
  changed definition must be stored again with `setDefinition`.
- A build that fails part-way leaves the trace holding the events of
  the objects already built. The returned container carries them, but its
  maps are unchanged, as in the source, where those objects are simply
  dropped.
