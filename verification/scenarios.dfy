/** The facts the repository's tests check, on the classes they declare. */
module Scenarios {
  import opened Values
  import opened Resolution
  import Properties

  const FooInterface := "FooInterface"
  const Foo := "Foo"
  const Bar := "Bar"

  /** `interface FooInterface`, `class Foo implements FooInterface` with
      constructor `($name = null, $age = 0)`, and `class Bar` with
      constructor `(FooInterface $foo)`. */
  const TestClasses: map<string, ClassInfo> := map[
    FooInterface := ClassInfo(false, None),
    Foo := ClassInfo(true, Some([Param(None), Param(None)])),
    Bar := ClassInfo(true, Some([Param(Some(FooInterface))]))
  ]

  /** `function ($container, $name) { return sprintf('Hello %s!', $name); }`,
      for a string `$name`; the scenarios make no other call, and those
      throw here. */
  function Greet(args: seq<Value>): Result<Value> {
    if |args| >= 2 && args[1].Str? then Ok(Str("Hello " + args[1].s + "!")) else Err(Thrown("Greet"))
  }

  /** `function () { return 'Mocha'; }` */
  function Name(args: seq<Value>): Result<Value> {
    Ok(Str("Mocha"))
  }

  /** `function ($container) { return sprintf('Hello %s!', $container->get('name')); }`,
      from the point where `get('name')` has returned `name`. */
  function HelloName(args: seq<Value>, name: Value): Result<Value> {
    if name.Str? then Ok(Str("Hello " + name.s + "!")) else Err(Thrown("HelloName"))
  }

  lemma FooHasNoDependencies()
    ensures ConstructorDependencies(TestClasses, TestClasses[Foo]) == Ok([])
  {
    var params := [Param(None), Param(None)];
    assert TestClasses[Foo] == ClassInfo(true, Some(params));
    assert params[..1] == [Param(None)] && params[..1][..0] == [];
    assert HintedClasses(TestClasses, params[..1]) == Ok([]);
    assert HintedClasses(TestClasses, params) == Ok([]);
  }

  lemma BarDependsOnFooInterface()
    ensures ConstructorDependencies(TestClasses, TestClasses[Bar]) == Ok([FooInterface])
  {
    var params := [Param(Some(FooInterface))];
    assert TestClasses[Bar] == ClassInfo(true, Some(params));
    assert params[..0] == [];
    assert FooInterface in TestClasses;
    var none: seq<string> := [];
    assert HintedClasses(TestClasses, params[..0]) == Ok(none);
    assert none + [FooInterface] == [FooInterface];
  }

  /** Building Foo with no class-typed parameters allocates one object
      holding exactly the explicit parameters. */
  lemma BuildFoo(st: State, params: seq<Value>, fuel: nat)
    requires Foo !in st.reflections || Valid(TestClasses, st)
    ensures Build(TestClasses, st, Foo, params, fuel).result == Ok(Obj(|st.heap|))
    ensures Build(TestClasses, st, Foo, params, fuel).state.heap == st.heap + [Object(Foo, params)]
  {
    FooHasNoDependencies();
    var d := Dependencies(TestClasses, st, Foo);
    assert d.result == Ok((TestClasses[Foo], []));
    assert ResolveDependencies(TestClasses, d.state, [], fuel) == Outcome(Ok([]), d.state);
    assert ArgValues([]) + params == params;
  }

  /** An id nobody registered is not found. */
  lemma UnknownNotFound(fuel: nat)
    ensures Get(TestClasses, Empty, "unknown", [], fuel) == Outcome(Err(NotFound("unknown")), Empty)
  {
  }

  /** A closure receives the container first and the parameters after it. */
  lemma ClosureWithParameter(fuel: nat)
    ensures var st := Set(Empty, "one", Some(Invocable(Greet)), false);
      Get(TestClasses, st, "one", [Str("Mocha")], fuel).result == Ok(Str("Hello Mocha!"))
  {
    var st := Set(Empty, "one", Some(Invocable(Greet)), false);
    assert [ContainerRef] + [Str("Mocha")] == [ContainerRef, Str("Mocha")];
    assert Get(TestClasses, st, "one", [Str("Mocha")], fuel).result == Greet([ContainerRef, Str("Mocha")]);
    assert "Hello " + "Mocha" + "!" == "Hello Mocha!";
  }

  /** A closure receives the container and resolves another id through it. */
  lemma ClosureCallsBack(fuel: nat)
    requires fuel > 0
    ensures var st := Set(Set(Empty, "name", Some(Invocable(Name)), false), "mocha", Some(Delegating("name", HelloName)), false);
      Get(TestClasses, st, "mocha", [], fuel).result == Ok(Str("Hello Mocha!"))
  {
    var st := Set(Set(Empty, "name", Some(Invocable(Name)), false), "mocha", Some(Delegating("name", HelloName)), false);
    assert Get(TestClasses, st, "name", [], fuel - 1) == Outcome(Ok(Str("Mocha")), st);
    assert "Hello " + "Mocha" + "!" == "Hello Mocha!";
  }

  /** A closure that resolves an id nobody registered makes `get` of its
      own, registered, id raise NotFound for the missing one. */
  lemma ClosureCallsBackMissing(fuel: nat)
    requires fuel > 0
    ensures var st := Set(Empty, "m", Some(Delegating("missing", HelloName)), false);
      Has(st, "m") && Get(TestClasses, st, "m", [], fuel) == Outcome(Err(NotFound("missing")), st)
  {
    var st := Set(Empty, "m", Some(Delegating("missing", HelloName)), false);
    assert Get(TestClasses, st, "missing", [], fuel - 1) == Outcome(Err(NotFound("missing")), st);
  }

  /** A pre-built object is returned as it is, and it is none of the
      objects the container builds. */
  lemma PrebuiltObject(obj: nat, params: seq<Value>, fuel: nat)
    ensures var st := Set(Empty, "foo3", Some(Instance(Ext(obj))), false);
      Get(TestClasses, st, "foo3", params, fuel) == Outcome(Ok(Ext(obj)), st)
  {
  }

  /** `get('foo', ['Mocha', 18])` on `set('foo', Foo::class)` passes both
      parameters to Foo's constructor. */
  lemma ClassWithParameters(fuel: nat)
    ensures var st := Set(Empty, "foo", Some(ClassName(Foo)), false);
      var o := Get(TestClasses, st, "foo", [Str("Mocha"), Int(18)], fuel);
      o.result == Ok(Obj(0)) && o.state.heap == [Object(Foo, [Str("Mocha"), Int(18)])]
  {
    var st := Set(Empty, "foo", Some(ClassName(Foo)), false);
    BuildFoo(st, [Str("Mocha"), Int(18)], fuel);
  }

  /** The singleton test: two `get`s of a singleton share one object; after
      re-registering the id without the flag, two `get`s build two objects. */
  lemma SingletonThenPlain()
    ensures var st1 := Set(Empty, "foo", Some(ClassName(Foo)), true);
      var first := Get(TestClasses, st1, "foo", [], 0);
      var second := Get(TestClasses, first.state, "foo", [], 0);
      var st2 := Set(second.state, "foo", Some(ClassName(Foo)), false);
      var third := Get(TestClasses, st2, "foo", [], 0);
      var fourth := Get(TestClasses, third.state, "foo", [], 0);
      && first.result == Ok(Obj(0)) && second.result == Ok(Obj(0))
      && third.result == Ok(Obj(1)) && fourth.result == Ok(Obj(2))
  {
    var st1 := Set(Empty, "foo", Some(ClassName(Foo)), true);
    BuildFoo(st1, [], 0);
    var first := Get(TestClasses, st1, "foo", [], 0);
    assert first.result == Ok(Obj(0)) && first.state.singletons["foo"] == Obj(0);
    var second := Get(TestClasses, first.state, "foo", [], 0);
    assert second == first;
    var st2 := Set(second.state, "foo", Some(ClassName(Foo)), false);
    assert Foo in st2.reflections;
    var d := Dependencies(TestClasses, st2, Foo);
    assert d == Outcome(Ok((TestClasses[Foo], [])), st2);
    assert ResolveDependencies(TestClasses, st2, [], 0) == Outcome(Ok([]), st2);
    var third := Get(TestClasses, st2, "foo", [], 0);
    assert third.result == Ok(Obj(1)) && |third.state.heap| == 2;
    assert third.state.reflections == st2.reflections && third.state.dependencies == st2.dependencies;
    assert Dependencies(TestClasses, third.state, Foo) == Outcome(Ok((TestClasses[Foo], [])), third.state);
    assert ResolveDependencies(TestClasses, third.state, [], 0) == Outcome(Ok([]), third.state);
  }

  /** Resolving Bar auto-wires FooInterface, bound to Foo, into Bar's
      constructor. */
  lemma DependencyInjection()
    ensures var st := Set(Set(Empty, FooInterface, Some(ClassName(Foo)), false), "bar", Some(ClassName(Bar)), false);
      var o := Get(TestClasses, st, "bar", [], 1);
      && o.result == Ok(Obj(1))
      && o.state.heap == [Object(Foo, []), Object(Bar, [Obj(0)])]
  {
    var st := Set(Set(Empty, FooInterface, Some(ClassName(Foo)), false), "bar", Some(ClassName(Bar)), false);
    BarDependsOnFooInterface();
    var d := Dependencies(TestClasses, st, Bar);
    assert d.result == Ok((TestClasses[Bar], [FooInterface]));
    var deps := [FooInterface];
    assert deps[..0] == [];
    assert Has(d.state, FooInterface) && !Computed(d.state, FooInterface);
    BuildFoo(d.state, [], 0);
    var inner := Get(TestClasses, d.state, FooInterface, [], 0);
    assert inner.result == Ok(Obj(0)) && inner.state.heap == [Object(Foo, [])];
    assert ResolveDependencies(TestClasses, d.state, deps[..0], 1) == Outcome(Ok([]), d.state);
    assert Bind([], FooInterface, Obj(0)) == [(FooInterface, Obj(0))];
    var r := ResolveDependencies(TestClasses, d.state, deps, 1);
    assert r == Outcome(Ok([(FooInterface, Obj(0))]), inner.state);
    assert ArgValues([(FooInterface, Obj(0))]) + [] == [Obj(0)];
  }

  /** The same resolution has the same outcome with any larger nesting
      depth. */
  lemma DependencyInjectionDeeper(fuel: nat)
    requires fuel >= 1
    ensures var st := Set(Set(Empty, FooInterface, Some(ClassName(Foo)), false), "bar", Some(ClassName(Bar)), false);
      var o := Get(TestClasses, st, "bar", [], fuel);
      && o.result == Ok(Obj(1))
      && o.state.heap == [Object(Foo, []), Object(Bar, [Obj(0)])]
  {
    var st := Set(Set(Empty, FooInterface, Some(ClassName(Foo)), false), "bar", Some(ClassName(Bar)), false);
    DependencyInjection();
    Properties.GetMoreFuel(TestClasses, st, "bar", [], 1, fuel);
  }

  /** Without a level of nesting to spare, the same resolution runs out of
      stack while resolving Bar's dependency. */
  lemma DependencyInjectionNeedsDepth()
    ensures var st := Set(Set(Empty, FooInterface, Some(ClassName(Foo)), false), "bar", Some(ClassName(Bar)), false);
      Get(TestClasses, st, "bar", [], 0).result == Err(StackExhausted(FooInterface))
  {
    var st := Set(Set(Empty, FooInterface, Some(ClassName(Foo)), false), "bar", Some(ClassName(Bar)), false);
    BarDependsOnFooInterface();
    var d := Dependencies(TestClasses, st, Bar);
    assert d.result == Ok((TestClasses[Bar], [FooInterface]));
    var deps := [FooInterface];
    assert deps[..0] == [];
    assert ResolveDependencies(TestClasses, d.state, deps, 0).result == Err(StackExhausted(FooInterface));
  }

  /** FooInterface cannot be instantiated when it is not bound to a class:
      a class depending on it fails with a ContainerException, after the
      interface was registered under its own name. */
  lemma UnboundInterface()
    ensures var st := Set(Empty, "bar", Some(ClassName(Bar)), false);
      var o := Get(TestClasses, st, "bar", [], 1);
      && o.result == Err(NotInstantiable(FooInterface))
      && FooInterface in o.state.definitions
      && o.state.definitions[FooInterface] == ClassName(FooInterface)
  {
    var st := Set(Empty, "bar", Some(ClassName(Bar)), false);
    BarDependsOnFooInterface();
    var d := Dependencies(TestClasses, st, Bar);
    assert d.result == Ok((TestClasses[Bar], [FooInterface]));
    var deps := [FooInterface];
    assert deps[..0] == [];
    var st1 := Set(d.state, FooInterface, None, false);
    assert Get(TestClasses, st1, FooInterface, [], 0) == Outcome(Err(NotInstantiable(FooInterface)), st1);
    assert ResolveDependencies(TestClasses, d.state, deps, 1) == Outcome(Err(NotInstantiable(FooInterface)), st1);
  }
}
