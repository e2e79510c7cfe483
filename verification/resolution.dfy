/** The container's behaviour as functions over the values of its tables.
    Each function here specifies the method of the same name in
    `Containers.Container`; the lemmas in `Properties` are about them. */
module Resolution {
  import opened Values

  /** The tables of a container. */
  datatype State = State(
    definitions: map<string, Concrete>,      // id -> registered concrete
    singletons: map<string, Value>,          // id -> cached instance; Null = marked, not yet computed
    reflections: map<string, ClassInfo>,     // class -> reflected metadata
    dependencies: map<string, seq<string>>,  // class -> class-typed constructor parameters
    heap: seq<Object>)                       // objects built so far; Obj(h) is heap[h]

  /** The result of an operation together with the tables it leaves behind:
      an exception does not undo the changes made before it was raised. */
  datatype Outcome<+T> = Outcome(result: Result<T>, state: State)

  /** A constructed dependency argument: the type name it is keyed by and its value. */
  type Arg = (string, Value)

  const Empty: State := State(map[], map[], map[], map[], [])

  /** A computed singleton: the slot exists and holds something other than null. */
  predicate Computed(st: State, id: string) {
    id in st.singletons && st.singletons[id] != Null
  }

  /** `v` is not a handle to an object the container has yet to build: an
      object made outside, or one the container built already. */
  predicate Exists(st: State, v: Value) {
    v.Obj? ==> v.ref < |st.heap|
  }

  /** What `set` can be given: a pre-built object exists already. */
  predicate Registrable(st: State, concrete: Option<Concrete>) {
    concrete.Some? && concrete.value.Instance? ==> Exists(st, concrete.value.obj)
  }

  /** The invariant of the tables: only registered ids have singleton slots,
      every registered pre-built object exists, and the two reflection
      caches are written together and agree with what reflection reports. */
  ghost predicate Valid(classes: map<string, ClassInfo>, st: State) {
    && st.singletons.Keys <= st.definitions.Keys
    && (forall id :: id in st.definitions && st.definitions[id].Instance? ==> Exists(st, st.definitions[id].obj))
    && st.reflections.Keys == st.dependencies.Keys
    && forall c :: c in st.reflections ==>
         && c in classes
         && st.reflections[c] == classes[c]
         && classes[c].instantiable
         && ConstructorDependencies(classes, classes[c]) == Ok(st.dependencies[c])
  }

  function Has(st: State, id: string): bool {
    id in st.definitions
  }

  /** `set(id, concrete, singleton)`; `None` is an omitted (null) concrete. */
  function Set(st: State, id: string, concrete: Option<Concrete>, singleton: bool): State {
    var c := if concrete.Some? then concrete.value else ClassName(id);
    st.(singletons := if singleton then st.singletons[id := Null] else st.singletons - {id},
        definitions := st.definitions[id := c])
  }

  /** The class-typed constructor parameters, in declaration order, as the
      loop in getDependencies collects them; a type hint naming an unknown
      class makes reflection fail. */
  function HintedClasses(classes: map<string, ClassInfo>, params: seq<Param>): Result<seq<string>>
    decreases |params|
  {
    if params == [] then Ok([])
    else
      match HintedClasses(classes, params[..|params| - 1])
      case Err(e) => Err(e)
      case Ok(deps) =>
        var p := params[|params| - 1];
        if p.classType.None? then Ok(deps)
        else if p.classType.value !in classes then Err(ClassNotFound(p.classType.value))
        else Ok(deps + [p.classType.value])
  }

  function ConstructorDependencies(classes: map<string, ClassInfo>, info: ClassInfo): Result<seq<string>> {
    if info.ctor.None? then Ok([]) else HintedClasses(classes, info.ctor.value)
  }

  /** `getDependencies(class)`: the reflection and dependency list, from the
      cache when the class was reflected before, else reflected and cached. */
  function Dependencies(classes: map<string, ClassInfo>, st: State, cls: string): Outcome<(ClassInfo, seq<string>)> {
    if cls in st.reflections then
      // an unset $dependencies[$class] reads as null, over which foreach does nothing
      Outcome(Ok((st.reflections[cls], if cls in st.dependencies then st.dependencies[cls] else [])), st)
    else if cls !in classes then Outcome(Err(ClassNotFound(cls)), st)
    else if !classes[cls].instantiable then Outcome(Err(NotInstantiable(cls)), st)
    else
      match ConstructorDependencies(classes, classes[cls])
      case Err(e) => Outcome(Err(e), st)
      case Ok(deps) =>
        Outcome(Ok((classes[cls], deps)),
                st.(reflections := st.reflections[cls := classes[cls]],
                    dependencies := st.dependencies[cls := deps]))
  }

  /** `$args[$key] = $v` on an ordered PHP array: an existing key keeps its
      position and takes the new value, a new key goes to the end. */
  function Bind(args: seq<Arg>, key: string, v: Value): seq<Arg>
    decreases |args|
  {
    if args == [] then [(key, v)]
    else if args[0].0 == key then [(key, v)] + args[1..]
    else [args[0]] + Bind(args[1..], key, v)
  }

  /** The keys of an ordered argument array, in order. */
  function Keys(args: seq<Arg>): (keys: seq<string>)
    ensures |keys| == |args|
  {
    if args == [] then [] else [args[0].0] + Keys(args[1..])
  }

  /** The values of an ordered argument array, in order: what
      `newInstanceArgs` passes positionally. */
  function ArgValues(args: seq<Arg>): (values: seq<Value>)
    ensures |values| == |args|
  {
    if args == [] then [] else [args[0].1] + ArgValues(args[1..])
  }

  /** `newInstanceArgs(args)`: a fresh object at the end of the heap. A class
      without a constructor accepts no arguments. */
  function Instantiate(st: State, cls: string, info: ClassInfo, args: seq<Value>): Outcome<Value> {
    if info.ctor.None? && args != [] then Outcome(Err(NoConstructorArgs(cls)), st)
    else Outcome(Ok(Obj(|st.heap|)), st.(heap := st.heap + [Object(cls, args)]))
  }

  /** The `foreach` of build over the first |deps| dependencies: register a
      missing one self-named and non-singleton, then `get` it. Resolving a
      dependency nests one level deeper; `fuel` is the number of nested
      `get`s still allowed below this one. */
  function ResolveDependencies(classes: map<string, ClassInfo>, st: State, deps: seq<string>, fuel: nat): Outcome<seq<Arg>>
    decreases fuel, 0, |deps|
  {
    if deps == [] then Outcome(Ok([]), st)
    else
      var done := ResolveDependencies(classes, st, deps[..|deps| - 1], fuel);
      if done.result.Err? then done
      else
        var dep := deps[|deps| - 1];
        var st1 := if Has(done.state, dep) then done.state else Set(done.state, dep, None, false);
        if fuel == 0 then Outcome(Err(StackExhausted(dep)), st1)
        else
          var got := Get(classes, st1, dep, [], fuel - 1);
          match got.result
          case Err(e) => Outcome(Err(e), got.state)
          case Ok(v) => Outcome(Ok(Bind(done.result.value, dep, v)), got.state)
  }

  /** `build(class, parameters)`: resolved dependencies, keyed by type name,
      then the explicit parameters, passed to the constructor. */
  function Build(classes: map<string, ClassInfo>, st: State, cls: string, params: seq<Value>, fuel: nat): Outcome<Value>
    decreases fuel, 1, 0
  {
    var d := Dependencies(classes, st, cls);
    match d.result
    case Err(e) => Outcome(Err(e), d.state)
    case Ok((info, deps)) =>
      var r := ResolveDependencies(classes, d.state, deps, fuel);
      match r.result
      case Err(e) => Outcome(Err(e), r.state)
      case Ok(args) => Instantiate(r.state, cls, info, ArgValues(args) + params)
  }

  /** The closure getClosure wraps around a concrete, called with the
      container and the parameters of `get`. A callable's call back into
      `get` nests one level deeper, as a dependency of `build` does. */
  function Invoke(classes: map<string, ClassInfo>, st: State, concrete: Concrete, params: seq<Value>, fuel: nat): Outcome<Value>
    decreases fuel, 2, 0
  {
    match concrete
    case Invocable(call) => Outcome(call([ContainerRef] + params), st)
    case Delegating(target, finish) =>
      if fuel == 0 then Outcome(Err(StackExhausted(target)), st)
      else
        var got := Get(classes, st, target, [], fuel - 1);
        (match got.result
         case Err(e) => Outcome(Err(e), got.state)
         case Ok(v) => Outcome(finish([ContainerRef] + params, v), got.state))
    case Instance(obj) => Outcome(Ok(obj), st)
    case ClassName(cls) => Build(classes, st, cls, params, fuel)
  }

  /** `get(id, parameters)`. */
  function Get(classes: map<string, ClassInfo>, st: State, id: string, params: seq<Value>, fuel: nat): Outcome<Value>
    decreases fuel, 3, 0
  {
    if Computed(st, id) then Outcome(Ok(st.singletons[id]), st)
    else if !Has(st, id) then Outcome(Err(NotFound(id)), st)
    else
      var o := Invoke(classes, st, st.definitions[id], params, fuel);
      match o.result
      case Err(_) => o
      case Ok(v) =>
        if id in o.state.singletons then Outcome(Ok(v), o.state.(singletons := o.state.singletons[id := v]))
        else o
  }
}
