/** What resolution promises, proved about the functions of `Resolution`. */
module Properties {
  import opened Values
  import opened Resolution

  // ---------------------------------------------------------------------
  // What resolution never undoes
  // ---------------------------------------------------------------------

  /** `after` extends `before`: registered ids keep their factories, ids
      registered in between are self-named, no singleton slot appears or
      disappears, computed singletons keep their value, the reflection
      caches only gain entries and built objects stay. */
  ghost predicate Grows(before: State, after: State) {
    && (forall k :: k in before.definitions ==> k in after.definitions && after.definitions[k] == before.definitions[k])
    && (forall k :: k in after.definitions && k !in before.definitions ==> after.definitions[k] == ClassName(k))
    && after.singletons.Keys == before.singletons.Keys
    && (forall k :: Computed(before, k) ==> after.singletons[k] == before.singletons[k])
    && before.heap <= after.heap
    && (forall c :: c in before.reflections ==> c in after.reflections && after.reflections[c] == before.reflections[c])
    && (forall c :: c in before.dependencies ==> c in after.dependencies && after.dependencies[c] == before.dependencies[c])
  }

  lemma GrowsTransitive(a: State, b: State, c: State)
    requires Grows(a, b) && Grows(b, c)
    ensures Grows(a, c)
  {
  }

  /** Registering an id that has no definition keeps a valid state valid
      and only adds to it. */
  lemma SetFreshGrows(classes: map<string, ClassInfo>, st: State, id: string)
    requires Valid(classes, st) && !Has(st, id)
    ensures Valid(classes, Set(st, id, None, false)) && Grows(st, Set(st, id, None, false))
  {
  }

  lemma DependenciesGrows(classes: map<string, ClassInfo>, st: State, cls: string)
    requires Valid(classes, st)
    ensures Valid(classes, Dependencies(classes, st, cls).state)
    ensures Grows(st, Dependencies(classes, st, cls).state)
  {
  }

  /** Resolving an id keeps the tables valid and never undoes anything. */
  lemma {:induction false} GetGrows(classes: map<string, ClassInfo>, st: State, id: string, params: seq<Value>, fuel: nat)
    requires Valid(classes, st)
    ensures Valid(classes, Get(classes, st, id, params, fuel).state)
    ensures Grows(st, Get(classes, st, id, params, fuel).state)
    decreases fuel, 3, 0
  {
    if !Computed(st, id) && Has(st, id) {
      InvokeGrows(classes, st, st.definitions[id], params, fuel);
      var o := Invoke(classes, st, st.definitions[id], params, fuel);
      if o.result.Ok? && id in o.state.singletons {
        var st' := o.state.(singletons := o.state.singletons[id := o.result.value]);
        // id was not computed before, so storing it overwrites no computed value
        forall k | Computed(st, k) ensures st'.singletons[k] == st.singletons[k] {
          assert k != id;
        }
      }
    }
  }

  lemma {:induction false} InvokeGrows(classes: map<string, ClassInfo>, st: State, concrete: Concrete, params: seq<Value>, fuel: nat)
    requires Valid(classes, st)
    ensures Valid(classes, Invoke(classes, st, concrete, params, fuel).state)
    ensures Grows(st, Invoke(classes, st, concrete, params, fuel).state)
    decreases fuel, 2, 0
  {
    match concrete
    case Invocable(_) =>
    case Delegating(target, _) =>
      if fuel > 0 {
        GetGrows(classes, st, target, [], fuel - 1);
      }
    case Instance(_) =>
    case ClassName(cls) => BuildGrows(classes, st, cls, params, fuel);
  }

  lemma {:induction false} BuildGrows(classes: map<string, ClassInfo>, st: State, cls: string, params: seq<Value>, fuel: nat)
    requires Valid(classes, st)
    ensures Valid(classes, Build(classes, st, cls, params, fuel).state)
    ensures Grows(st, Build(classes, st, cls, params, fuel).state)
    decreases fuel, 1, 0
  {
    DependenciesGrows(classes, st, cls);
    var d := Dependencies(classes, st, cls);
    if d.result.Ok? {
      var deps := d.result.value.1;
      ResolveGrows(classes, d.state, deps, fuel);
      var r := ResolveDependencies(classes, d.state, deps, fuel);
      GrowsTransitive(st, d.state, r.state);
    }
  }

  lemma {:induction false} ResolveGrows(classes: map<string, ClassInfo>, st: State, deps: seq<string>, fuel: nat)
    requires Valid(classes, st)
    ensures Valid(classes, ResolveDependencies(classes, st, deps, fuel).state)
    ensures Grows(st, ResolveDependencies(classes, st, deps, fuel).state)
    decreases fuel, 0, |deps|
  {
    if deps != [] {
      var prefix := deps[..|deps| - 1];
      ResolveGrows(classes, st, prefix, fuel);
      var done := ResolveDependencies(classes, st, prefix, fuel);
      if done.result.Ok? {
        var dep := deps[|deps| - 1];
        var st1 := if Has(done.state, dep) then done.state else Set(done.state, dep, None, false);
        if !Has(done.state, dep) {
          SetFreshGrows(classes, done.state, dep);
        }
        GrowsTransitive(st, done.state, st1);
        if fuel > 0 {
          GetGrows(classes, st1, dep, [], fuel - 1);
          GrowsTransitive(st, st1, Get(classes, st1, dep, [], fuel - 1).state);
        }
      }
    }
  }

  // ---------------------------------------------------------------------
  // Fuel only cuts resolution off
  // ---------------------------------------------------------------------

  predicate Exhausted<T>(r: Result<T>) {
    r.Err? && r.error.StackExhausted?
  }

  /** A `get` that did not run out of nesting depth has the same outcome
      with any larger depth: the bound only ever replaces an outcome by
      `StackExhausted`, it never changes one. */
  lemma {:induction false} GetMoreFuel(classes: map<string, ClassInfo>, st: State, id: string, params: seq<Value>, f: nat, g: nat)
    requires f <= g && !Exhausted(Get(classes, st, id, params, f).result)
    ensures Get(classes, st, id, params, g) == Get(classes, st, id, params, f)
    decreases f, 3, 0
  {
    if !Computed(st, id) && Has(st, id) {
      InvokeMoreFuel(classes, st, st.definitions[id], params, f, g);
    }
  }

  lemma {:induction false} InvokeMoreFuel(classes: map<string, ClassInfo>, st: State, concrete: Concrete, params: seq<Value>, f: nat, g: nat)
    requires f <= g && !Exhausted(Invoke(classes, st, concrete, params, f).result)
    ensures Invoke(classes, st, concrete, params, g) == Invoke(classes, st, concrete, params, f)
    decreases f, 2, 0
  {
    match concrete
    case Invocable(_) =>
    case Delegating(target, _) =>
      if f > 0 {
        GetMoreFuel(classes, st, target, [], f - 1, g - 1);
      }
    case Instance(_) =>
    case ClassName(cls) => BuildMoreFuel(classes, st, cls, params, f, g);
  }

  lemma {:induction false} BuildMoreFuel(classes: map<string, ClassInfo>, st: State, cls: string, params: seq<Value>, f: nat, g: nat)
    requires f <= g && !Exhausted(Build(classes, st, cls, params, f).result)
    ensures Build(classes, st, cls, params, g) == Build(classes, st, cls, params, f)
    decreases f, 1, 0
  {
    var d := Dependencies(classes, st, cls);
    if d.result.Ok? {
      ResolveMoreFuel(classes, d.state, d.result.value.1, f, g);
    }
  }

  lemma {:induction false} ResolveMoreFuel(classes: map<string, ClassInfo>, st: State, deps: seq<string>, f: nat, g: nat)
    requires f <= g && !Exhausted(ResolveDependencies(classes, st, deps, f).result)
    ensures ResolveDependencies(classes, st, deps, g) == ResolveDependencies(classes, st, deps, f)
    decreases f, 0, |deps|
  {
    if deps != [] {
      var prefix := deps[..|deps| - 1];
      ResolveMoreFuel(classes, st, prefix, f, g);
      var done := ResolveDependencies(classes, st, prefix, f);
      if done.result.Ok? && f > 0 {
        var dep := deps[|deps| - 1];
        var st1 := if Has(done.state, dep) then done.state else Set(done.state, dep, None, false);
        GetMoreFuel(classes, st1, dep, [], f - 1, g - 1);
      }
    }
  }

  // ---------------------------------------------------------------------
  // The loops stop at the first failure
  // ---------------------------------------------------------------------

  /** Once resolving a prefix of the dependencies has failed, resolving the
      whole list fails the same way and leaves the same tables. */
  lemma {:induction false} ResolveFailureSticks(classes: map<string, ClassInfo>, st: State, deps: seq<string>, k: nat, fuel: nat)
    requires k <= |deps|
    requires ResolveDependencies(classes, st, deps[..k], fuel).result.Err?
    ensures ResolveDependencies(classes, st, deps, fuel) == ResolveDependencies(classes, st, deps[..k], fuel)
    decreases |deps|
  {
    if k < |deps| {
      var prefix := deps[..|deps| - 1];
      assert prefix[..k] == deps[..k];
      ResolveFailureSticks(classes, st, prefix, k, fuel);
    } else {
      assert deps[..k] == deps;
    }
  }

  /** Once a type hint has named an unknown class, collecting the hints of
      the whole parameter list fails the same way. */
  lemma {:induction false} HintFailureSticks(classes: map<string, ClassInfo>, params: seq<Param>, k: nat)
    requires k <= |params|
    requires HintedClasses(classes, params[..k]).Err?
    ensures HintedClasses(classes, params) == HintedClasses(classes, params[..k])
    decreases |params|
  {
    if k < |params| {
      var prefix := params[..|params| - 1];
      assert prefix[..k] == params[..k];
      HintFailureSticks(classes, prefix, k);
    } else {
      assert params[..k] == params;
    }
  }

  // ---------------------------------------------------------------------
  // set, setSingleton, has
  // ---------------------------------------------------------------------

  /** After `set(id, concrete, singleton)` the id is registered with the
      given concrete, or with its own name as class name when none is
      given; a singleton gets an uncomputed slot, a non-singleton loses its
      slot and any cached instance; no other id, cache or object changes. */
  lemma SetRegisters(st: State, id: string, concrete: Option<Concrete>, singleton: bool)
    ensures var st' := Set(st, id, concrete, singleton);
      && Has(st', id)
      && st'.definitions[id] == (if concrete.Some? then concrete.value else ClassName(id))
      && (singleton ==> id in st'.singletons && st'.singletons[id] == Null && !Computed(st', id))
      && (!singleton ==> id !in st'.singletons)
      && (forall k :: k != id ==> (Has(st', k) <==> Has(st, k)))
      && (forall k :: k != id && k in st.definitions ==> st'.definitions[k] == st.definitions[k])
      && (forall k :: k != id ==> (k in st'.singletons <==> k in st.singletons))
      && (forall k :: k != id && k in st.singletons ==> st'.singletons[k] == st.singletons[k])
      && st'.reflections == st.reflections && st'.dependencies == st.dependencies && st'.heap == st.heap
  {
  }

  /** `set` keeps the tables valid. */
  lemma SetValid(classes: map<string, ClassInfo>, st: State, id: string, concrete: Option<Concrete>, singleton: bool)
    requires Valid(classes, st) && Registrable(st, concrete)
    ensures Valid(classes, Set(st, id, concrete, singleton))
  {
  }

  /** After a non-singleton `set`, `get` runs the new factory and stores
      nothing for the id, however the id was registered before. */
  lemma {:induction false} SetPlainRunsFactory(classes: map<string, ClassInfo>, st: State, id: string, c: Concrete, params: seq<Value>, fuel: nat)
    requires Valid(classes, st) && Registrable(st, Some(c))
    ensures var st1 := Set(st, id, Some(c), false);
      && Get(classes, st1, id, params, fuel) == Invoke(classes, st1, c, params, fuel)
      && id !in Get(classes, st1, id, params, fuel).state.singletons
  {
    var st1 := Set(st, id, Some(c), false);
    InvokeGrows(classes, st1, c, params, fuel);
  }

  /** After `setSingleton`, the first `get` runs the factory and stores its
      result in the slot. */
  lemma {:induction false} SetSingletonRunsFactoryOnce(classes: map<string, ClassInfo>, st: State, id: string, c: Concrete, params: seq<Value>, fuel: nat)
    requires Valid(classes, st) && Registrable(st, Some(c))
    ensures var st1 := Set(st, id, Some(c), true);
      var o := Get(classes, st1, id, params, fuel);
      && o.result == Invoke(classes, st1, c, params, fuel).result
      && (o.result.Ok? ==> id in o.state.singletons && o.state.singletons[id] == o.result.value)
  {
    var st1 := Set(st, id, Some(c), true);
    InvokeGrows(classes, st1, c, params, fuel);
  }

  // ---------------------------------------------------------------------
  // get
  // ---------------------------------------------------------------------

  predicate IsNotFound<T>(r: Result<T>) {
    r.Err? && r.error.NotFound?
  }

  /** A factory that cannot make `get` raise NotFound by itself: a callable
      that never raises it, or one that calls back into `get` for a
      registered id and never raises it afterwards. */
  ghost predicate NeverMisses(st: State, c: Concrete) {
    match c
    case Invocable(call) => forall args :: !IsNotFound(call(args))
    case Delegating(target, finish) => Has(st, target) && forall args, v :: !IsNotFound(finish(args, v))
    case _ => true
  }

  ghost predicate FactoriesNeverMiss(st: State) {
    forall id :: id in st.definitions ==> NeverMisses(st, st.definitions[id])
  }

  /** Resolution only adds self-named class names, so factories that could
      not raise NotFound still cannot. */
  lemma NeverMissGrows(before: State, after: State)
    requires Grows(before, after) && FactoriesNeverMiss(before)
    ensures FactoriesNeverMiss(after)
  {
    forall id | id in after.definitions
      ensures NeverMisses(after, after.definitions[id])
    {
      if id in before.definitions {
        assert NeverMisses(before, before.definitions[id]);
      }
    }
  }

  /** When no factory raises NotFound itself, only the outermost `get` can
      report it: every dependency is registered before it is resolved. */
  lemma {:induction false} GetRegisteredNeverNotFound(classes: map<string, ClassInfo>, st: State, id: string, params: seq<Value>, fuel: nat)
    requires Valid(classes, st) && FactoriesNeverMiss(st) && Has(st, id)
    ensures !IsNotFound(Get(classes, st, id, params, fuel).result)
    decreases fuel, 3, 0
  {
    if !Computed(st, id) {
      InvokeNeverNotFound(classes, st, st.definitions[id], params, fuel);
    }
  }

  lemma {:induction false} InvokeNeverNotFound(classes: map<string, ClassInfo>, st: State, concrete: Concrete, params: seq<Value>, fuel: nat)
    requires Valid(classes, st) && FactoriesNeverMiss(st) && NeverMisses(st, concrete)
    ensures !IsNotFound(Invoke(classes, st, concrete, params, fuel).result)
    decreases fuel, 2, 0
  {
    match concrete
    case Invocable(_) =>
    case Delegating(target, _) =>
      if fuel > 0 {
        GetRegisteredNeverNotFound(classes, st, target, [], fuel - 1);
      }
    case Instance(_) =>
    case ClassName(cls) => BuildNeverNotFound(classes, st, cls, params, fuel);
  }

  lemma {:induction false} BuildNeverNotFound(classes: map<string, ClassInfo>, st: State, cls: string, params: seq<Value>, fuel: nat)
    requires Valid(classes, st) && FactoriesNeverMiss(st)
    ensures !IsNotFound(Build(classes, st, cls, params, fuel).result)
    decreases fuel, 1, 0
  {
    var d := Dependencies(classes, st, cls);
    if d.result.Ok? {
      DependenciesGrows(classes, st, cls);
      NeverMissGrows(st, d.state);
      ResolveNeverNotFound(classes, d.state, d.result.value.1, fuel);
    } else if cls in classes && classes[cls].ctor.Some? {
      HintedClassesMeaning(classes, classes[cls].ctor.value);
    }
  }

  lemma {:induction false} ResolveNeverNotFound(classes: map<string, ClassInfo>, st: State, deps: seq<string>, fuel: nat)
    requires Valid(classes, st) && FactoriesNeverMiss(st)
    ensures !IsNotFound(ResolveDependencies(classes, st, deps, fuel).result)
    decreases fuel, 0, |deps|
  {
    if deps != [] {
      var prefix := deps[..|deps| - 1];
      ResolveNeverNotFound(classes, st, prefix, fuel);
      var done := ResolveDependencies(classes, st, prefix, fuel);
      if done.result.Ok? && fuel > 0 {
        var dep := deps[|deps| - 1];
        ResolveGrows(classes, st, prefix, fuel);
        NeverMissGrows(st, done.state);
        var st1 := if Has(done.state, dep) then done.state else Set(done.state, dep, None, false);
        if !Has(done.state, dep) {
          SetFreshGrows(classes, done.state, dep);
          NeverMissGrows(done.state, st1);
        }
        GetRegisteredNeverNotFound(classes, st1, dep, [], fuel - 1);
      }
    }
  }

  /** `get` of an id with neither a definition nor a computed singleton
      fails with NotFound for that id and changes nothing; when no factory
      raises NotFound itself, these are the only ids it fails for. */
  lemma GetNotFound(classes: map<string, ClassInfo>, st: State, id: string, params: seq<Value>, fuel: nat)
    ensures var o := Get(classes, st, id, params, fuel);
      && (!Has(st, id) && !Computed(st, id) ==> o == Outcome(Err(NotFound(id)), st))
      && (Valid(classes, st) && FactoriesNeverMiss(st) && IsNotFound(o.result) ==> !Has(st, id) && !Computed(st, id))
  {
    if Valid(classes, st) && FactoriesNeverMiss(st) && Has(st, id) {
      GetRegisteredNeverNotFound(classes, st, id, params, fuel);
    }
  }

  /** A computed singleton is returned as it is: the parameters are
      ignored, no factory runs and nothing changes. */
  lemma GetComputedSingleton(classes: map<string, ClassInfo>, st: State, id: string, params: seq<Value>, fuel: nat)
    requires Computed(st, id)
    ensures Get(classes, st, id, params, fuel) == Outcome(Ok(st.singletons[id]), st)
  {
  }

  /** Otherwise a registered id runs its factory with the parameters. */
  lemma GetRunsFactory(classes: map<string, ClassInfo>, st: State, id: string, params: seq<Value>, fuel: nat)
    requires !Computed(st, id) && Has(st, id)
    ensures var o := Get(classes, st, id, params, fuel);
      var f := Invoke(classes, st, st.definitions[id], params, fuel);
      && o.result == f.result
      && (o.result.Err? ==> o.state == f.state)
      && (o.result.Ok? && id !in f.state.singletons ==> o.state == f.state)
  {
  }

  /** `get` stores its result only in the slot of the id it resolves, and
      only when that slot exists: a singleton's slot then holds the result,
      a non-singleton still has no slot. */
  lemma {:induction false} GetStoresInSlot(classes: map<string, ClassInfo>, st: State, id: string, params: seq<Value>, fuel: nat)
    requires Valid(classes, st) && Has(st, id)
    requires Get(classes, st, id, params, fuel).result.Ok?
    ensures var o := Get(classes, st, id, params, fuel);
      && (id in st.singletons ==> id in o.state.singletons && o.state.singletons[id] == o.result.value)
      && (id !in st.singletons ==> id !in o.state.singletons)
  {
    if !Computed(st, id) {
      InvokeGrows(classes, st, st.definitions[id], params, fuel);
    }
  }

  /** Two `get`s of a singleton return the identical value once it is not
      null: the second ignores its parameters and changes nothing. */
  lemma {:induction false} SingletonShared(classes: map<string, ClassInfo>, st: State, id: string,
                                           params1: seq<Value>, fuel1: nat, params2: seq<Value>, fuel2: nat)
    requires Valid(classes, st) && Has(st, id) && id in st.singletons
    requires Get(classes, st, id, params1, fuel1).result.Ok?
    requires Get(classes, st, id, params1, fuel1).result.value != Null
    ensures var first := Get(classes, st, id, params1, fuel1);
      Get(classes, first.state, id, params2, fuel2) == Outcome(first.result, first.state)
  {
    GetStoresInSlot(classes, st, id, params1, fuel1);
  }

  /** A singleton whose factory returned null is stored as null, which reads
      as not yet computed: the next `get` runs the same factory again. */
  lemma {:induction false} NullSingletonRerun(classes: map<string, ClassInfo>, st: State, id: string,
                                              params1: seq<Value>, fuel1: nat, params2: seq<Value>, fuel2: nat)
    requires Valid(classes, st) && Has(st, id) && id in st.singletons
    requires Get(classes, st, id, params1, fuel1).result == Ok(Null)
    ensures var first := Get(classes, st, id, params1, fuel1);
      && !Computed(first.state, id)
      && Get(classes, first.state, id, params2, fuel2).result
         == Invoke(classes, first.state, st.definitions[id], params2, fuel2).result
  {
    GetStoresInSlot(classes, st, id, params1, fuel1);
    GetGrows(classes, st, id, params1, fuel1);
  }

  /** `build` returns a new object: its handle is past every object that
      existed before, and it is the last object of the new heap. */
  lemma {:induction false} BuildAllocates(classes: map<string, ClassInfo>, st: State, cls: string, params: seq<Value>, fuel: nat)
    requires Valid(classes, st)
    requires Build(classes, st, cls, params, fuel).result.Ok?
    ensures var o := Build(classes, st, cls, params, fuel);
      && o.result.value.Obj?
      && |st.heap| <= o.result.value.ref
      && o.result.value.ref + 1 == |o.state.heap|
      && o.state.heap[o.result.value.ref].cls == cls
  {
    DependenciesGrows(classes, st, cls);
    var d := Dependencies(classes, st, cls);
    ResolveGrows(classes, d.state, d.result.value.1, fuel);
  }

  /** An object `build` returns is none of the pre-built objects
      registered before: those exist already, it is new. */
  lemma BuildNotPrebuilt(classes: map<string, ClassInfo>, st: State, cls: string, params: seq<Value>, fuel: nat)
    requires Valid(classes, st)
    requires Build(classes, st, cls, params, fuel).result.Ok?
    ensures forall id :: id in st.definitions && st.definitions[id].Instance? ==>
      st.definitions[id].obj != Build(classes, st, cls, params, fuel).result.value
  {
    BuildAllocates(classes, st, cls, params, fuel);
  }

  /** Two `get`s of an id registered as a class name and not as a singleton
      build two distinct objects. */
  lemma {:induction false} PlainClassDistinct(classes: map<string, ClassInfo>, st: State, id: string,
                                              params1: seq<Value>, fuel1: nat, params2: seq<Value>, fuel2: nat)
    requires Valid(classes, st) && Has(st, id) && id !in st.singletons
    requires st.definitions[id].ClassName?
    requires Get(classes, st, id, params1, fuel1).result.Ok?
    requires Get(classes, Get(classes, st, id, params1, fuel1).state, id, params2, fuel2).result.Ok?
    ensures var first := Get(classes, st, id, params1, fuel1);
      var second := Get(classes, first.state, id, params2, fuel2);
      && first.result.value.Obj? && second.result.value.Obj?
      && first.result.value != second.result.value
  {
    var cls := st.definitions[id].name;
    BuildAllocates(classes, st, cls, params1, fuel1);
    BuildGrows(classes, st, cls, params1, fuel1);
    var first := Get(classes, st, id, params1, fuel1);
    BuildAllocates(classes, first.state, cls, params2, fuel2);
  }

  // ---------------------------------------------------------------------
  // The closure of getClosure
  // ---------------------------------------------------------------------

  /** A callable receives the container and then the parameters, in order,
      and what it returns or throws is the outcome; a callable calling back
      into `get` sees the tables that `get` leaves and its exceptions pass
      through; a pre-built object comes back unchanged whatever the
      parameters; a class name is built with the parameters. Only building
      and the nested `get` touch the tables. */
  lemma InvokeDispatch(classes: map<string, ClassInfo>, st: State, concrete: Concrete, params: seq<Value>, fuel: nat)
    ensures var o := Invoke(classes, st, concrete, params, fuel);
      && (concrete.Invocable? ==> o == Outcome(concrete.call([ContainerRef] + params), st))
      && (concrete.Delegating? && fuel == 0 ==> o == Outcome(Err(StackExhausted(concrete.target)), st))
      && (concrete.Delegating? && fuel > 0 ==>
            var got := Get(classes, st, concrete.target, [], fuel - 1);
            && o.state == got.state
            && o.result == if got.result.Ok? then concrete.finish([ContainerRef] + params, got.result.value) else got.result)
      && (concrete.Instance? ==> o == Outcome(Ok(concrete.obj), st))
      && (concrete.ClassName? ==> o == Build(classes, st, concrete.name, params, fuel))
  {
  }

  // ---------------------------------------------------------------------
  // getDependencies
  // ---------------------------------------------------------------------

  /** The classes named by the type hints of `params`, in order; parameters
      without a class type hint contribute nothing. */
  function ClassTyped(params: seq<Param>): seq<string> {
    if params == [] then []
    else (if params[0].classType.Some? then [params[0].classType.value] else []) + ClassTyped(params[1..])
  }

  predicate HintsKnown(classes: map<string, ClassInfo>, params: seq<Param>) {
    forall i :: 0 <= i < |params| && params[i].classType.Some? ==> params[i].classType.value in classes
  }

  lemma {:induction false} ClassTypedSnoc(params: seq<Param>, p: Param)
    ensures ClassTyped(params + [p]) == ClassTyped(params) + (if p.classType.Some? then [p.classType.value] else [])
    decreases |params|
  {
    if params != [] {
      assert (params + [p])[1..] == params[1..] + [p];
      ClassTypedSnoc(params[1..], p);
    }
  }

  /** The loop of getDependencies keeps exactly the class-typed parameters,
      in order, when every hint names a known class; otherwise it fails
      with a ReflectionException naming an unknown hinted class. */
  lemma {:induction false} HintedClassesMeaning(classes: map<string, ClassInfo>, params: seq<Param>)
    ensures HintsKnown(classes, params) ==> HintedClasses(classes, params) == Ok(ClassTyped(params))
    ensures !HintsKnown(classes, params) ==>
      && HintedClasses(classes, params).Err?
      && HintedClasses(classes, params).error.ClassNotFound?
      && HintedClasses(classes, params).error.cls !in classes
      && exists i :: 0 <= i < |params| && params[i].classType == Some(HintedClasses(classes, params).error.cls)
    decreases |params|
  {
    if params != [] {
      var prefix := params[..|params| - 1];
      var p := params[|params| - 1];
      assert params == prefix + [p];
      HintedClassesMeaning(classes, prefix);
      ClassTypedSnoc(prefix, p);
      if !HintsKnown(classes, prefix) {
        var e := HintedClasses(classes, prefix).error;
        var i :| 0 <= i < |prefix| && prefix[i].classType == Some(e.cls);
        assert params[i] == prefix[i];
      } else if !HintsKnown(classes, params) {
        assert p.classType.Some? && p.classType.value !in classes;
      } else {
        assert HintedClasses(classes, prefix) == Ok(ClassTyped(prefix));
        if p.classType.Some? {
          assert p.classType.value in classes by { assert params[|params| - 1] == p; }
          assert HintedClasses(classes, params) == Ok(ClassTyped(prefix) + [p.classType.value]);
        } else {
          assert HintedClasses(classes, params) == Ok(ClassTyped(prefix));
          assert ClassTyped(params) == ClassTyped(prefix);
        }
      }
    }
  }

  /** A class that is not cached and cannot be instantiated raises a
      ContainerException and caches nothing. */
  lemma DependenciesNotInstantiable(classes: map<string, ClassInfo>, st: State, cls: string)
    requires cls !in st.reflections && cls in classes && !classes[cls].instantiable
    ensures Dependencies(classes, st, cls) == Outcome(Err(NotInstantiable(cls)), st)
  {
  }

  /** getDependencies fails exactly when the class is not cached and is
      unknown, not instantiable, or hints an unknown class; a failure
      changes no table. */
  lemma DependenciesFailure(classes: map<string, ClassInfo>, st: State, cls: string)
    ensures var d := Dependencies(classes, st, cls);
      && (d.result.Err? <==>
            cls !in st.reflections
            && (cls !in classes || !classes[cls].instantiable
                || (classes[cls].ctor.Some? && !HintsKnown(classes, classes[cls].ctor.value))))
      && (d.result.Err? ==> d.state == st)
  {
    if cls !in st.reflections && cls in classes && classes[cls].ctor.Some? {
      HintedClassesMeaning(classes, classes[cls].ctor.value);
    }
  }

  /** A first successful getDependencies caches the reflection and the
      class-typed constructor parameters, in order; a later call returns
      them from the cache without changing anything. */
  lemma DependenciesCached(classes: map<string, ClassInfo>, st: State, cls: string)
    requires Valid(classes, st)
    requires Dependencies(classes, st, cls).result.Ok?
    ensures var d := Dependencies(classes, st, cls);
      var params := if classes[cls].ctor.Some? then classes[cls].ctor.value else [];
      && cls in classes
      && d.result.value == (classes[cls], ClassTyped(params))
      && d.state.reflections[cls] == classes[cls]
      && d.state.dependencies[cls] == ClassTyped(params)
      && Dependencies(classes, d.state, cls) == Outcome(d.result, d.state)
  {
    if classes[cls].ctor.Some? {
      HintedClassesMeaning(classes, classes[cls].ctor.value);
    }
  }

  // ---------------------------------------------------------------------
  // build
  // ---------------------------------------------------------------------

  /** The elements of `s` without repetitions, each where it first occurs. */
  function Distinct(s: seq<string>): seq<string> {
    if s == [] then []
    else
      var prefix := s[..|s| - 1];
      if s[|s| - 1] in prefix then Distinct(prefix) else Distinct(prefix) + [s[|s| - 1]]
  }

  lemma {:induction false} DistinctMembers(s: seq<string>)
    ensures forall x :: x in Distinct(s) <==> x in s
    decreases |s|
  {
    if s != [] {
      var prefix := s[..|s| - 1];
      DistinctMembers(prefix);
      assert s == prefix + [s[|s| - 1]];
    }
  }

  /** Binding a key keeps the keys in order and adds the key at the end
      only when it is new; the key is then bound to the new value, and
      every other entry keeps its value and its position. */
  lemma {:induction false} BindKeys(args: seq<Arg>, key: string, v: Value)
    ensures Keys(Bind(args, key, v)) == if key in Keys(args) then Keys(args) else Keys(args) + [key]
    ensures (key, v) in Bind(args, key, v)
    ensures |args| <= |Bind(args, key, v)|
    ensures forall i :: 0 <= i < |args| && args[i].0 != key ==> Bind(args, key, v)[i] == args[i]
    decreases |args|
  {
    if args != [] && args[0].0 != key {
      BindKeys(args[1..], key, v);
      assert Bind(args, key, v)[1..] == Bind(args[1..], key, v);
    } else if args != [] {
      assert Bind(args, key, v)[1..] == args[1..];
    }
  }

  /** The dependency arguments are keyed by type name: one entry per
      distinct dependency, in the order of first occurrence. */
  lemma {:induction false} ResolveKeys(classes: map<string, ClassInfo>, st: State, deps: seq<string>, fuel: nat)
    requires ResolveDependencies(classes, st, deps, fuel).result.Ok?
    ensures Keys(ResolveDependencies(classes, st, deps, fuel).result.value) == Distinct(deps)
    decreases |deps|
  {
    if deps != [] {
      var prefix := deps[..|deps| - 1];
      var done := ResolveDependencies(classes, st, prefix, fuel);
      ResolveKeys(classes, st, prefix, fuel);
      DistinctMembers(prefix);
      var dep := deps[|deps| - 1];
      var st1 := if Has(done.state, dep) then done.state else Set(done.state, dep, None, false);
      BindKeys(done.result.value, dep, Get(classes, st1, dep, [], fuel - 1).result.value);
    }
  }

  /** Every dependency is registered once resolution succeeds. */
  lemma {:induction false} ResolveRegistersAll(classes: map<string, ClassInfo>, st: State, deps: seq<string>, fuel: nat)
    requires Valid(classes, st)
    requires ResolveDependencies(classes, st, deps, fuel).result.Ok?
    ensures forall d :: d in deps ==> Has(ResolveDependencies(classes, st, deps, fuel).state, d)
    decreases |deps|
  {
    if deps != [] {
      var prefix := deps[..|deps| - 1];
      var done := ResolveDependencies(classes, st, prefix, fuel);
      ResolveRegistersAll(classes, st, prefix, fuel);
      ResolveGrows(classes, st, prefix, fuel);
      var dep := deps[|deps| - 1];
      var st1 := if Has(done.state, dep) then done.state else Set(done.state, dep, None, false);
      if !Has(done.state, dep) {
        SetFreshGrows(classes, done.state, dep);
      }
      GetGrows(classes, st1, dep, [], fuel - 1);
      assert Grows(done.state, st1);
      GrowsTransitive(done.state, st1, Get(classes, st1, dep, [], fuel - 1).state);
      assert deps == prefix + [dep];
    }
  }

  /** Every dependency is registered once resolution succeeds: one that was
      missing is registered under its own name, as a class name, and not as
      a singleton. */
  lemma ResolveRegisters(classes: map<string, ClassInfo>, st: State, deps: seq<string>, fuel: nat)
    requires Valid(classes, st)
    requires ResolveDependencies(classes, st, deps, fuel).result.Ok?
    ensures var after := ResolveDependencies(classes, st, deps, fuel).state;
      forall d :: d in deps ==>
        && Has(after, d)
        && (!Has(st, d) ==> after.definitions[d] == ClassName(d) && d !in after.singletons)
  {
    ResolveRegistersAll(classes, st, deps, fuel);
    ResolveGrows(classes, st, deps, fuel);
  }

  /** A successful `build` constructs an object of the class whose
      constructor receives one argument per distinct class-typed parameter,
      followed by the explicit parameters; every such class is then
      registered in the container. */
  lemma {:induction false} BuildArguments(classes: map<string, ClassInfo>, st: State, cls: string, params: seq<Value>, fuel: nat)
    requires Valid(classes, st)
    requires Build(classes, st, cls, params, fuel).result.Ok?
    ensures cls in classes
    ensures var o := Build(classes, st, cls, params, fuel);
      var deps := ClassTyped(if classes[cls].ctor.Some? then classes[cls].ctor.value else []);
      var n := |Distinct(deps)|;
      && o.result.value.Obj?
      && o.result.value.ref < |o.state.heap|
      && o.state.heap[o.result.value.ref].cls == cls
      && |o.state.heap[o.result.value.ref].args| == n + |params|
      && o.state.heap[o.result.value.ref].args[n..] == params
      && (forall d :: d in deps ==> Has(o.state, d))
  {
    DependenciesCached(classes, st, cls);
    DependenciesGrows(classes, st, cls);
    var d := Dependencies(classes, st, cls);
    var deps := d.result.value.1;
    ResolveKeys(classes, d.state, deps, fuel);
    ResolveRegisters(classes, d.state, deps, fuel);
    var r := ResolveDependencies(classes, d.state, deps, fuel);
    var args := ArgValues(r.result.value) + params;
    assert |Keys(r.result.value)| == |ArgValues(r.result.value)|;
    assert args[|ArgValues(r.result.value)|..] == params;
  }
}
