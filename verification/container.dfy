/** The container object: its tables are fields that the methods update in
    place. Every method is proved to leave the tables, and to return, what
    the function of the same name in `Resolution` says. */
module Containers {
  import opened Values
  import Resolution
  import Properties

  class Container {
    /** The classes the runtime knows, as reflection reports them. */
    const classes: map<string, ClassInfo>

    var definitions: map<string, Concrete>
    var singletons: map<string, Value>
    var reflections: map<string, ClassInfo>
    var dependencies: map<string, seq<string>>
    /** The objects built by this container, as handles `Obj(h)` refer to them. */
    var heap: seq<Object>

    function State(): Resolution.State
      reads this
    {
      Resolution.State(definitions, singletons, reflections, dependencies, heap)
    }

    ghost predicate Valid()
      reads this
    {
      Resolution.Valid(classes, State())
    }

    constructor (classes: map<string, ClassInfo>)
      ensures this.classes == classes
      ensures State() == Resolution.Empty && Valid()
    {
      this.classes := classes;
      definitions, singletons := map[], map[];
      reflections, dependencies := map[], map[];
      heap := [];
    }

    /** `has(id)`. */
    function Has(id: string): (b: bool)
      reads this
      ensures b == Resolution.Has(State(), id)
    {
      id in definitions
    }

    /** `set(id, concrete, singleton)`. */
    method Set(id: string, concrete: Option<Concrete>, singleton: bool)
      requires Valid() && Resolution.Registrable(State(), concrete)
      modifies this
      ensures Valid()
      ensures State() == Resolution.Set(old(State()), id, concrete, singleton)
    {
      var c := if concrete.Some? then concrete.value else ClassName(id);
      if singleton {
        singletons := singletons[id := Null];
      } else {
        singletons := singletons - {id};
      }
      definitions := definitions[id := c];
    }

    /** `setSingleton(id, concrete)`. */
    method SetSingleton(id: string, concrete: Option<Concrete>)
      requires Valid() && Resolution.Registrable(State(), concrete)
      modifies this
      ensures Valid()
      ensures State() == Resolution.Set(old(State()), id, concrete, true)
    {
      Set(id, concrete, true);
    }

    /** `get(id, parameters)`; `fuel` is the number of nested `get`s, by
        auto-wiring or by a callable's call back, allowed below this call. */
    method Get(id: string, parameters: seq<Value>, fuel: nat) returns (r: Result<Value>)
      requires Valid()
      modifies this
      decreases fuel, 3, 0
      ensures Valid()
      ensures Resolution.Outcome(r, State()) == Resolution.Get(classes, old(State()), id, parameters, fuel)
    {
      if id in singletons && singletons[id] != Null {
        return Ok(singletons[id]);
      }
      if Has(id) {
        r := Invoke(definitions[id], parameters, fuel);
        if r.Ok? && id in singletons {
          singletons := singletons[id := r.value];
        }
        return;
      }
      r := Err(NotFound(id));
    }

    /** The closure getClosure wraps around `concrete`. */
    method Invoke(concrete: Concrete, parameters: seq<Value>, fuel: nat) returns (r: Result<Value>)
      requires Valid()
      modifies this
      decreases fuel, 2, 0
      ensures Valid()
      ensures Resolution.Outcome(r, State()) == Resolution.Invoke(classes, old(State()), concrete, parameters, fuel)
    {
      match concrete
      case Invocable(call) => r := call([ContainerRef] + parameters);
      case Delegating(target, finish) =>
        if fuel == 0 {
          return Err(StackExhausted(target));
        }
        r := Get(target, [], fuel - 1);
        if r.Ok? {
          r := finish([ContainerRef] + parameters, r.value);
        }
      case Instance(obj) => r := Ok(obj);
      case ClassName(cls) => r := Build(cls, parameters, fuel);
    }

    /** `build(class, parameters)`. */
    method Build(cls: string, parameters: seq<Value>, fuel: nat) returns (r: Result<Value>)
      requires Valid()
      modifies this
      decreases fuel, 1, 0
      ensures Valid()
      ensures Resolution.Outcome(r, State()) == Resolution.Build(classes, old(State()), cls, parameters, fuel)
    {
      var d := GetDependencies(cls);
      if d.Err? {
        return Err(d.error);
      }
      var (reflection, deps) := d.value;
      ghost var st0 := State();
      var args: seq<Resolution.Arg> := [];
      var i := 0;
      while i < |deps|
        invariant 0 <= i <= |deps|
        invariant Valid()
        invariant Resolution.ResolveDependencies(classes, st0, deps[..i], fuel) == Resolution.Outcome(Ok(args), State())
      {
        var dep := deps[i];
        assert deps[..i + 1][..i] == deps[..i];
        if !Has(dep) {
          Set(dep, None, false);
        }
        if fuel == 0 {
          Properties.ResolveFailureSticks(classes, st0, deps, i + 1, fuel);
          return Err(StackExhausted(dep));
        }
        var v := Get(dep, [], fuel - 1);
        if v.Err? {
          Properties.ResolveFailureSticks(classes, st0, deps, i + 1, fuel);
          return Err(v.error);
        }
        args := Resolution.Bind(args, dep, v.value);
        i := i + 1;
      }
      assert deps[..i] == deps;
      r := NewInstance(cls, reflection, Resolution.ArgValues(args) + parameters);
    }

    /** `newInstanceArgs(args)` on the reflection of `cls`. */
    method NewInstance(cls: string, reflection: ClassInfo, args: seq<Value>) returns (r: Result<Value>)
      requires Valid()
      modifies this
      ensures Valid()
      ensures Resolution.Outcome(r, State()) == Resolution.Instantiate(old(State()), cls, reflection, args)
    {
      if reflection.ctor.None? && args != [] {
        return Err(NoConstructorArgs(cls));
      }
      heap := heap + [Object(cls, args)];
      r := Ok(Obj(|heap| - 1));
    }

    /** `getDependencies(class)`. */
    method GetDependencies(cls: string) returns (r: Result<(ClassInfo, seq<string>)>)
      requires Valid()
      modifies this
      ensures Valid()
      ensures Resolution.Outcome(r, State()) == Resolution.Dependencies(classes, old(State()), cls)
    {
      if cls in reflections {
        return Ok((reflections[cls], if cls in dependencies then dependencies[cls] else []));
      }
      if cls !in classes {
        return Err(ClassNotFound(cls));
      }
      var reflection := classes[cls];
      if !reflection.instantiable {
        return Err(NotInstantiable(cls));
      }
      var deps: seq<string> := [];
      if reflection.ctor.Some? {
        var params := reflection.ctor.value;
        var i := 0;
        while i < |params|
          invariant 0 <= i <= |params|
          invariant Resolution.HintedClasses(classes, params[..i]) == Ok(deps)
        {
          assert params[..i + 1][..i] == params[..i];
          var hint := params[i].classType;
          if hint.Some? {
            if hint.value !in classes {
              Properties.HintFailureSticks(classes, params, i + 1);
              return Err(ClassNotFound(hint.value));
            }
            deps := deps + [hint.value];
          }
          i := i + 1;
        }
        assert params[..i] == params;
      }
      reflections := reflections[cls := reflection];
      dependencies := dependencies[cls := deps];
      r := Ok((reflection, deps));
    }
  }
}
