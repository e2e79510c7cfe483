# A verified model of the flashytime/container dependency-injection container

The repository is one PHP class, `Container` (`src/Container.php`). It is a
registry that maps string identifiers to construction recipes and resolves
object graphs on demand. Its state is four tables that its methods update in
place:

- `$definitions`: id → factory. A factory is the closure that `getClosure`
  wraps around the registered concrete.
- `$singletons`: the singleton slot of an id. No key means the id is not a
  singleton. A key holding `null` means a singleton not yet computed. Any
  other value is the cached instance.
- `$reflections` and `$dependencies`: the reflection of a class and its
  class-typed constructor parameters. Both are cached the first time the
  class is built.

The model has five modules:

- `Values` (`values.dfy`): PHP values. Objects the container built are
  handles `Obj(h)`, and objects made outside it are `Ext(n)`, a separate
  kind of handle. A pre-built object registered with `set` is one of these
  two. If it is an `Obj(h)`, the container has already built it: `Valid`
  requires `h` to be inside the heap. So an object `build` returns is never
  a registered pre-built one (`Properties.BuildNotPrebuilt`). The module
  also holds:
  - the registered concrete as a tagged variant (`Invocable`, `Delegating`,
    `Instance`, `ClassName`);
  - what reflection reports about a class (`ClassInfo`);
  - the built objects (`Object`);
  - the exceptions (`Error`), including one a callable throws of its own
    (`Thrown`).
- `Resolution` (`resolution.dfy`): the tables as a datatype `State`, and one
  function per operation: `Has`, `Set`, `Dependencies` (getDependencies),
  `ResolveDependencies` (the `foreach` of build), `Build`, `Invoke` (the
  closure of getClosure) and `Get`. Each function returns the result and the
  tables it leaves behind. An exception does not undo changes made before it
  was raised.
- `Containers` (`container.dfy`): the class `Container`. Its fields are the
  tables, and its methods update them in place. `Build` and `GetDependencies`
  keep the source's loops. Each method is proved to return, and to leave the
  tables in, what its `Resolution` function says:
  - `Has`, `Set`, `Get`, `Invoke` and `Build`: the function of the same name;
  - `SetSingleton`: `Set` with the singleton flag;
  - `NewInstance`: `Instantiate`;
  - `GetDependencies`: `Dependencies`.
- `Properties` (`properties.dfy`): what the container promises, proved about
  the `Resolution` functions.
- `Scenarios` (`scenarios.dfy`): the facts that `tests/ContainerTest.php`
  checks, proved on the test's own classes `Foo`, `Bar` and `FooInterface`.

Reflection is an input table, `classes: map<string, ClassInfo>`. It records
whether each class is instantiable and, when the class declares a
constructor, the type hint of each constructor parameter. An object built by
`newInstanceArgs` is appended to the container's `heap`, together with its
class and its constructor arguments. `Obj(h)` refers to `heap[h]`, so "the
same instance" and "a new instance" can both be stated.

Resolution recurses through `get` → closure → `build` → `get`, and through a
callable that calls back into `get`. The source has no cycle check. Each
method therefore takes a `fuel` argument: how many nested `get`s are still
allowed. When `build` must resolve a dependency, or a callable must call
back, with no fuel left, the result is `StackExhausted`. The fuel counts
nested `get`s, not PHP stack frames. With no fuel left, even a dependency
that is already a computed singleton fails, although PHP would not recurse
for it. `Properties.GetMoreFuel` shows that the fuel only ever cuts a
resolution off: an outcome other than `StackExhausted` is the same for every
larger fuel. So a `StackExhausted` outcome that no callable raised itself
means only that the fuel was too small for this resolution, or that no
fuel suffices, as on a dependency cycle, where PHP exhausts its stack.

In these details the model follows what the code does:
- An unknown class name raises a ReflectionException (`ClassNotFound`), not
  a ContainerException. This applies to a built class and to a type hint.
- A class without a constructor that is given arguments raises a
  ReflectionException (`NoConstructorArgs`).
- `get` stores a `null` factory result, and `null` reads as "not computed".
  Such a singleton therefore reruns its factory on every `get`.
- A constructor with two parameters of the same class type gets one argument
  for both, because the arguments are keyed by type name. The explicit
  parameters follow that one argument.

## Model

| member | source | states |
|---|---|---|
| Containers.Container.constructor | src/Container.php:20-38 | a new container has four empty tables and has built no object |
| Containers.Container.Has | src/Container.php:73-76 | `has` is true exactly when the id has a definition |
| Containers.Container.Set | src/Container.php:84-97 | for a pre-built object that exists, the new tables are those of `Resolution.Set`, and the tables stay valid |
| Containers.Container.SetSingleton | src/Container.php:104-107 | `setSingleton` is `set` with the singleton flag |
| Containers.Container.Get | src/Container.php:47-66 | result and new tables are those of `Resolution.Get`: cached singleton first, then the factory, with the result stored only when the slot key exists, else NotFound |
| Containers.Container.Invoke | src/Container.php:121-129 | the closure dispatches on the concrete as `Resolution.Invoke` does |
| Containers.Container.Build | src/Container.php:138-150 | the loop registers and resolves each dependency in order and stops at the first failure; result and tables are those of `Resolution.Build` |
| Containers.Container.NewInstance | src/Container.php:149 | `newInstanceArgs` appends a fresh object, or fails for arguments to a class without constructor |
| Containers.Container.GetDependencies | src/Container.php:158-182 | answers from the cache, or reflects, fails for unknown or non-instantiable classes and unknown hints, and caches the class-typed parameters in order |
| Properties.SetRegisters | src/Container.php:84-97 | after `set` the id is registered with the concrete, or with its own name when none is given; a singleton slot is uncomputed, a non-singleton has none; nothing else changes |
| Properties.SetValid | src/Container.php:84-97 | `set` of a concrete that exists keeps every singleton slot on a registered id and every registered pre-built object in existence |
| Properties.SetPlainRunsFactory | src/Container.php:90-94 | after a non-singleton `set`, `get` runs the new factory and stores nothing, whatever was cached before |
| Properties.SetSingletonRunsFactoryOnce | src/Container.php:90-91 | after `setSingleton`, the first `get` runs the factory and caches its result |
| Properties.GetGrows | src/Container.php:47-66 | for factories that do not call `set` back, resolving keeps the tables valid; it never changes an existing definition, adds or removes a singleton slot, overwrites a computed singleton, drops a cache entry or an object; ids it registers are self-named |
| Properties.InvokeGrows | src/Container.php:121-129 | the same for the factory closure, including a callable's call back into `get` |
| Properties.BuildGrows | src/Container.php:138-150 | the same for `build` |
| Properties.ResolveGrows | src/Container.php:142-147 | the same for the dependency loop of `build` |
| Properties.GetMoreFuel | src/Container.php:47-66 | a `get` whose outcome is not `StackExhausted` has the same outcome, tables included, with any larger fuel |
| Properties.InvokeMoreFuel | src/Container.php:121-129 | the same for the factory closure |
| Properties.BuildMoreFuel | src/Container.php:138-150 | the same for `build` |
| Properties.ResolveMoreFuel | src/Container.php:142-147 | the same for the dependency loop of `build` |
| Properties.SetFreshGrows | src/Container.php:143-145 | registering a missing dependency only adds to the tables |
| Properties.DependenciesGrows | src/Container.php:158-182 | getDependencies only adds to the reflection caches, consistently with reflection |
| Properties.ResolveFailureSticks | src/Container.php:142-147 | an exception in the dependency loop ends `build` with the tables as they were at that point |
| Properties.HintFailureSticks | src/Container.php:172-176 | an unknown type hint ends getDependencies with that exception |
| Properties.NeverMissGrows | src/Container.php:143-146 | resolution adds only self-named class names, so it keeps every factory unable to raise NotFound |
| Properties.GetRegisteredNeverNotFound | src/Container.php:53-62 | when no registered factory raises NotFound itself, `get` of a registered id never fails with NotFound |
| Properties.InvokeNeverNotFound | src/Container.php:121-129 | under the same condition, a factory closure never fails with NotFound |
| Properties.BuildNeverNotFound | src/Container.php:138-150 | under the same condition, `build` never fails with NotFound, since each dependency is registered before `get` |
| Properties.ResolveNeverNotFound | src/Container.php:142-147 | under the same condition, the dependency loop never fails with NotFound |
| Properties.GetNotFound | src/Container.php:49-65 | `get` of an id with neither a definition nor a computed singleton fails with NotFound for that id and changes nothing; when no factory raises NotFound itself, no other `get` does |
| Properties.GetComputedSingleton | src/Container.php:49-51 | a computed singleton is returned as is, whatever the parameters, with no factory run and no change |
| Properties.GetRunsFactory | src/Container.php:53-62 | otherwise a registered id returns what its factory returns for the parameters |
| Properties.GetStoresInSlot | src/Container.php:58-60 | `get` stores its result in the id's slot exactly when that slot exists |
| Properties.SingletonShared | src/Container.php:49-60 | a second `get` of a singleton returns the identical non-null value and changes nothing |
| Properties.NullSingletonRerun | src/Container.php:49-59 | a singleton whose factory returned null stays uncomputed, and the next `get` runs the factory again |
| Properties.BuildAllocates | src/Container.php:149 | `build` returns a new object of the class, past every object that existed before |
| Properties.BuildNotPrebuilt | src/Container.php:149 | the object `build` returns is none of the pre-built objects registered before |
| Properties.PlainClassDistinct | src/Container.php:53-62 | two `get`s of a non-singleton class name return two distinct objects |
| Properties.InvokeDispatch | src/Container.php:121-129 | a callable gets the container and then the parameters in order, and its value or exception is the outcome; a callable calling back into `get` passes that `get`'s exception through; a pre-built object comes back unchanged; anything else is built with the parameters |
| Properties.HintedClassesMeaning | src/Container.php:170-177 | the dependency list is exactly the class-typed constructor parameters in order, or an exception naming an unknown hinted class |
| Properties.DependenciesNotInstantiable | src/Container.php:165-168 | a class that is not cached and not instantiable raises ContainerException and caches nothing |
| Properties.DependenciesFailure | src/Container.php:160-168 | getDependencies fails exactly for an uncached class that is unknown, not instantiable or hints an unknown class, and then changes nothing |
| Properties.DependenciesCached | src/Container.php:160-181 | a successful call caches the reflection and the class-typed parameters; a later call returns them unchanged without reflecting |
| Properties.BindKeys | src/Container.php:146 | `$args[$dependency] = …` keeps keys in order, adds a key only when new, binds it to the new value, and leaves every other entry with its value at its position |
| Properties.ResolveKeys | src/Container.php:142-147 | the dependency arguments hold one entry per distinct dependency, in first-occurrence order |
| Properties.ResolveRegisters | src/Container.php:142-146 | after the loop every dependency is registered; a missing one is self-named and non-singleton |
| Properties.BuildArguments | src/Container.php:138-150 | the constructor gets one argument per distinct class-typed parameter, then the explicit parameters, and every such class ends up registered |
| Scenarios.BuildFoo | tests/ContainerTest.php:133-142 | building Foo, for the first time or with its reflection cached, passes exactly the explicit parameters |
| Scenarios.UnknownNotFound | tests/ContainerTest.php:120-124 | `get('unknown')` fails with NotFound |
| Scenarios.ClosureWithParameter | tests/ContainerTest.php:72-77 | `get('one', ['Mocha'])` returns 'Hello Mocha!' |
| Scenarios.ClosureCallsBack | tests/ContainerTest.php:33-40 | a closure that calls `get('name')` on the container it receives returns 'Hello Mocha!' |
| Scenarios.ClosureCallsBackMissing | src/Container.php:123 | a closure calling `get` for an unregistered id makes `get` of its own registered id raise NotFound for the missing id |
| Scenarios.PrebuiltObject | tests/ContainerTest.php:59-62 | a registered object made outside the container comes back as is |
| Scenarios.ClassWithParameters | tests/ContainerTest.php:86-90 | `get('foo', ['Mocha', 18])` builds Foo with both parameters |
| Scenarios.SingletonThenPlain | tests/ContainerTest.php:93-108 | a singleton gives the same object twice; after re-registering without the flag, two distinct objects |
| Scenarios.DependencyInjection | tests/ContainerTest.php:110-118 | Bar is built with a Foo, through the FooInterface binding |
| Scenarios.DependencyInjectionDeeper | tests/ContainerTest.php:110-118 | the same resolution gives the same objects with any fuel of at least one |
| Scenarios.DependencyInjectionNeedsDepth | src/Container.php:146 | the same resolution needs one level of nesting for the nested `get` |
| Scenarios.UnboundInterface | src/Container.php:142-146 | an unbound interface dependency is registered self-named, then fails as not instantiable |

## Left out

- A callable is a function of its argument list that returns a value or
  throws. It can call back into the container in one form only:
  `Delegating` makes one `get` without parameters, then computes from the
  result. A closure that calls `set`, calls `has` or `build`, makes several
  calls, or builds a new object on each call is not modelled.
- Properties.GetGrows: the definition, slot and self-named clauses hold
  because no modelled factory calls `set` on the container it receives
  (line 123). A closure that does can change a definition or a singleton
  slot during `get`.
- Properties.InvokeGrows: the same limit: a callable that calls `set` back
  is not modelled.
- Properties.BuildGrows: the same limit, through a dependency bound to such
  a callable.
- Properties.ResolveGrows: the same limit, through the nested `get` of a
  dependency.
- Properties.GetRegisteredNeverNotFound: holds only when no registered
  factory raises NotFound itself (`FactoriesNeverMiss`). A closure that
  calls `get` for a missing id breaks it, as
  `Scenarios.ClosureCallsBackMissing` shows.
- Properties.InvokeNeverNotFound: holds only under the same condition.
- Properties.BuildNeverNotFound: holds only under the same condition, for
  the factories of its dependencies.
- Properties.ResolveNeverNotFound: holds only under the same condition.
- Properties.GetNotFound: the direction "a NotFound outcome means an
  unregistered id" holds only under the same condition. The other direction
  and "changes nothing" hold for every factory.
- `is_callable` on strings and arrays, such as a string naming a global
  function, is not modelled. The concrete carries an explicit tag instead.
  A scalar concrete that is neither an object nor a class name is not
  modelled.
- Reflection is an immutable input table. PHP class names are treated as
  case-sensitive.
- Constructor bodies are not run, and parameter types and arity are not
  checked. Any exception a constructor raises is not modelled: one of its
  own, an ArgumentCountError for a missing required argument, or a
  TypeError, such as `Bar(FooInterface $foo)` receiving a value that is not
  a FooInterface through a binding to a callable.
- Arguments are passed to `newInstanceArgs` by position, with keys ignored,
  as PHP 7 does. PHP 8 would treat the string keys as named arguments.
  String-keyed `$parameters` arrays are not modelled either: parameters are
  an ordered list.
- Depth: the source recurses without bound. The model stops after `fuel`
  nested `get`s with `StackExhausted`. So an acyclic graph deeper than the
  fuel also fails in the model, and with no fuel left, a dependency that
  would not recurse fails too. By `Properties.GetMoreFuel`, any outcome
  other than `StackExhausted` stays the same with more fuel.
- A callable may return any value, including an `Obj` handle past the
  heap, which no PHP closure can produce. Only registered pre-built objects
  are tied to the heap. A callable may also raise any of the model's
  errors, `StackExhausted` included, without any nested `get` or cycle. No
  PHP closure can raise that one.
- Objects created outside the container (`Ext`) are opaque: their class and
  their constructor arguments are not recorded in `heap`.
- The text of exception messages (`sprintf`), the exception classes and the
  PSR `ContainerInterface` are not modelled.
- Concurrency is not modelled: the source is single-threaded.
- Properties.HintedClassesMeaning: for a failing hint list it states that the
  error names some unknown hinted class, not that it is the first one.
  `Resolution.HintedClasses` reports the first, and
  `Containers.Container.GetDependencies` is proved equal to it.
- Properties.BuildArguments: states how many dependency arguments come
  before the explicit parameters, not their values. Each value is what the
  nested `get` returned, as `Resolution.ResolveDependencies` defines.
