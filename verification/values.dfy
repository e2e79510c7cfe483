/** The values the container stores, passes around and returns. */
module Values {

  datatype Option<+T> = None | Some(value: T)

  /** A PHP value as the container sees it. `Obj(h)` is the object the
      container built as its `h`-th object; `Ext(n)` is an object made
      outside the container, a different one for each `n`, and never one the
      container built; `ContainerRef` is the container itself, which every
      factory receives as its first argument. */
  datatype Value =
    | Null
    | Bool(b: bool)
    | Int(i: int)
    | Str(s: string)
    | Obj(ref: nat)
    | Ext(id: nat)
    | ContainerRef

  /** The values `is_object` holds for. */
  type ObjectValue = v: Value | v.Obj? || v.Ext? witness Ext(0)

  /** What `set` may register for an identifier (the `$concrete` argument),
      told apart by an explicit tag instead of `is_callable`/`is_object`:
      - a callable invoked with the argument list, which returns a value or
        throws;
      - a callable that calls `get(target)` on the container it receives
        and computes its result from the argument list and the value
        obtained (an exception of that `get` passes through it);
      - a pre-built object;
      - the name of a class to instantiate by auto-wiring. */
  datatype Concrete =
    | Invocable(call: seq<Value> -> Result<Value>)
    | Delegating(target: string, finish: (seq<Value>, Value) -> Result<Value>)
    | Instance(obj: ObjectValue)
    | ClassName(name: string)

  /** One constructor parameter: the class or interface named by its type
      hint, if it has one. */
  datatype Param = Param(classType: Option<string>)

  /** What reflection reports about a class: whether it can be instantiated
      and, when it declares a constructor, that constructor's parameters. */
  datatype ClassInfo = ClassInfo(instantiable: bool, ctor: Option<seq<Param>>)

  /** An object built by `newInstanceArgs`: its class and the arguments its
      constructor received, in order. */
  datatype Object = Object(cls: string, args: seq<Value>)

  /** The exceptions resolution can raise. */
  datatype Error =
    | NotFound(id: string)            // NotFoundException from get
    | NotInstantiable(cls: string)    // ContainerException from getDependencies
    | ClassNotFound(cls: string)      // ReflectionException: no such class
    | NoConstructorArgs(cls: string)  // ReflectionException: arguments for a class without constructor
    | StackExhausted(id: string)      // the nesting depth allowed for nested `get`s ran out
    | Thrown(message: string)         // an exception a callable raised of its own

  datatype Result<+T> = Ok(value: T) | Err(error: Error)
}
