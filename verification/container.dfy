/**
 The service container: four maps keyed by lower-cased id (instances,
 aliases, definitions, parameters) and the resolution algorithm `Get`.

 Reflection-based instantiation is modelled as handing out the next
 `Built` handle; the constructor run, the property assignments and the
 method calls it performs are appended, in order, to an effect trace.
 */
module Containers {
  import opened Ids
  import opened Values
  import opened Definitions

  /** "service is not defined", "cannot access service directly", and the recursion bound. */
  datatype Error = NotDefined | NotAccessible | OutOfFuel

  datatype Result<+T> = Ok(value: T) | Err(error: Error)

  /** What instantiating a service does to the objects of the program. */
  datatype Event =
    | Constructed(obj: Handle, className: string, args: seq<Value>)
    | PropertyAssigned(obj: Handle, name: string, value: Value)
    | MethodCalled(obj: Handle, methodName: string, args: seq<Value>)

  datatype Container = Container(
    services: map<string, Value>,
    aliases: map<string, string>,
    definitions: map<string, Definition>,
    parameters: map<string, Value>,
    nextHandle: nat,
    effects: seq<Event>)

  /** The result of an operation together with the container it leaves behind. */
  datatype Outcome<+T> = Outcome(result: Result<T>, state: Container)

  /** The id under which the container registers itself. */
  const ContainerId: string := "service_container"

  /** Aliases, definitions and parameters are the same in both containers. */
  predicate SameConfiguration(a: Container, b: Container) {
    a.aliases == b.aliases && a.definitions == b.definitions && a.parameters == b.parameters
  }

  /** A new container holds only itself, under `service_container`. */
  function NewContainer(): (c: Container)
    ensures c.services.Keys == {ContainerId} && c.services[ContainerId] == Obj(Self)
    ensures c.aliases == map[] && c.definitions == map[] && c.parameters == map[]
    ensures c.effects == []
  {
    Container(map[ContainerId := Obj(Self)], map[], map[], map[], 0, [])
  }

  /** The key an id denotes: its lower-cased form, after at most one alias hop. */
  function Resolve(c: Container, id: string): (key: string)
    ensures Lower(id) !in c.aliases ==> key == Lower(id)
    ensures Lower(id) in c.aliases ==> key == c.aliases[Lower(id)]
  {
    var key := Lower(id);
    if key in c.aliases then c.aliases[key] else key
  }

  /** The lookup is a direct (non-alias) one of a non-public definition. */
  predicate DirectPrivate(c: Container, id: string) {
    Lower(id) !in c.aliases && Lower(id) in c.definitions && !c.definitions[Lower(id)].public
  }

  // ---------------------------------------------------------------------
  // Registration

  function Set(c: Container, id: string, service: Value): (c': Container)
    ensures c'.services == c.services[Lower(id) := service]
    ensures SameConfiguration(c, c') && c'.nextHandle == c.nextHandle && c'.effects == c.effects
  {
    c.(services := c.services[Lower(id) := service])
  }

  function SetAlias(c: Container, aliasId: string, id: string): (c': Container)
    ensures c'.aliases == c.aliases[Lower(aliasId) := Lower(id)]
    ensures c'.services == c.services && c'.definitions == c.definitions && c'.parameters == c.parameters
    ensures c'.nextHandle == c.nextHandle && c'.effects == c.effects
  {
    c.(aliases := c.aliases[Lower(aliasId) := Lower(id)])
  }

  function SetParameter(c: Container, id: string, value: Value): (c': Container)
    ensures c'.parameters == c.parameters[Lower(id) := value]
    ensures c'.services == c.services && c'.aliases == c.aliases && c'.definitions == c.definitions
    ensures c'.nextHandle == c.nextHandle && c'.effects == c.effects
  {
    c.(parameters := c.parameters[Lower(id) := value])
  }

  function SetDefinition(c: Container, id: string, d: Definition): (c': Container)
    ensures c'.definitions == c.definitions[Lower(id) := d]
    ensures c'.services == c.services && c'.aliases == c.aliases && c'.parameters == c.parameters
    ensures c'.nextHandle == c.nextHandle && c'.effects == c.effects
  {
    c.(definitions := c.definitions[Lower(id) := d])
  }

  // ---------------------------------------------------------------------
  // Lookup

  /** An unknown parameter reads as null; parameters are not aliased. */
  function GetParameter(c: Container, id: string): (v: Value)
    ensures Lower(id) in c.parameters ==> v == c.parameters[Lower(id)]
    ensures Lower(id) !in c.parameters ==> v == Null
  {
    var key := Lower(id);
    if key in c.parameters then c.parameters[key] else Null
  }

  /** The definition stored under the alias-resolved key; instances alone do not count. */
  function GetDefinition(c: Container, id: string): (r: Result<Definition>)
    ensures r.Ok? <==> Resolve(c, id) in c.definitions
    ensures r.Ok? ==> r.value == c.definitions[Resolve(c, id)]
    ensures r.Err? ==> r.error == NotDefined
  {
    var key := Resolve(c, id);
    if key in c.definitions then Ok(c.definitions[key]) else Err(NotDefined)
  }

  // ---------------------------------------------------------------------
  // Argument rewriting

  /** How a constructor argument is read by the rewriting step. */
  datatype ArgumentKind = ServiceReference(id: string) | ParameterReference(name: string) | Literal

  /**
   A string starting with `@` refers to a service (this test comes first);
   otherwise a string longer than two characters wrapped in `%` refers to a
   parameter. Everything else, the empty string included, is a literal.
   */
  function Classify(v: Value): (k: ArgumentKind)
    ensures k.ServiceReference? <==> v.Str? && |v.text| > 0 && v.text[0] == '@'
    ensures k.ServiceReference? ==> v.text == "@" + k.id
    ensures k.ParameterReference? <==>
      v.Str? && |v.text| > 2 && v.text[0] == '%' && v.text[|v.text| - 1] == '%'
    ensures k.ParameterReference? ==> v.text == "%" + k.name + "%" && |k.name| > 0
  {
    match v
    case Str(s) =>
      if |s| > 0 && s[0] == '@' then ServiceReference(s[1..])
      else if |s| > 2 && s[0] == '%' && s[|s| - 1] == '%' then ParameterReference(s[1..|s| - 1])
      else Literal
    case _ => Literal
  }

  /** Reference meaning of rewriting one argument `a` into `b`. */
  predicate ArgumentRewritten(c: Container, a: Value, b: Value) {
    match Classify(a)
    case Literal => b == a
    case ParameterReference(name) => b == GetParameter(c, name)
    case ServiceReference(id) =>
      Resolve(c, id) in c.definitions && b.Obj? && b.handle.Built? && b.handle.n >= c.nextHandle
  }

  /** `v` is an object built by the container with a handle in `[lo, hi)`. */
  predicate BuiltBetween(v: Value, lo: nat, hi: nat) {
    v.Obj? && v.handle.Built? && lo <= v.handle.n < hi
  }

  /**
   Every service reference in `args` was replaced by an object built during
   the rewriting (handles in `[lo, hi)`), each reference by a different one,
   in the order of the arguments.
   */
  predicate ReferencesFresh(args: seq<Value>, out: seq<Value>, lo: nat, hi: nat)
    requires |out| == |args|
  {
    && (forall i :: 0 <= i < |args| && Classify(args[i]).ServiceReference? ==> BuiltBetween(out[i], lo, hi))
    && (forall i, j ::
          0 <= i < j < |args| && Classify(args[i]).ServiceReference? && Classify(args[j]).ServiceReference? ==>
            BuiltBetween(out[i], lo, out[j].handle.n))
  }

  /** Reference meaning of rewriting a whole argument list. */
  predicate ArgumentsRewritten(c: Container, args: seq<Value>, out: seq<Value>) {
    |out| == |args| && forall i :: 0 <= i < |args| ==> ArgumentRewritten(c, args[i], out[i])
  }

  function PropertyEvents(h: Handle, props: seq<Property>): (es: seq<Event>)
    ensures |es| == |props|
    ensures forall i :: 0 <= i < |props| ==> es[i] == PropertyAssigned(h, props[i].name, props[i].value)
  {
    seq(|props|, i requires 0 <= i < |props| => PropertyAssigned(h, props[i].name, props[i].value))
  }

  /** Call arguments are passed on exactly as written: no substitution. */
  function CallEvents(h: Handle, calls: seq<Call>): (es: seq<Event>)
    ensures |es| == |calls|
    ensures forall i :: 0 <= i < |calls| ==> es[i] == MethodCalled(h, calls[i].methodName, calls[i].args)
  {
    seq(|calls|, i requires 0 <= i < |calls| => MethodCalled(h, calls[i].methodName, calls[i].args))
  }

  /**
   The trace ends with the construction of `h` from `d`'s class and a rewritten
   copy of its arguments, then `d`'s property assignments, then `d`'s calls.
   */
  predicate ConstructionRecorded(c: Container, es: seq<Event>, h: Handle, d: Definition) {
    var tail := |d.properties| + |d.calls|;
    && |es| > tail
    && es[|es| - tail - 1].Constructed?
    && es[|es| - tail - 1].obj == h
    && es[|es| - tail - 1].className == d.className
    && ArgumentsRewritten(c, d.arguments, es[|es| - tail - 1].args)
    && es[|es| - tail..] == PropertyEvents(h, d.properties) + CallEvents(h, d.calls)
  }

  /** The trace records the construction of object `h` as an instance of class `cls`. */
  predicate ConstructedAs(es: seq<Event>, h: Handle, cls: string) {
    exists k :: 0 <= k < |es| && es[k].Constructed? && es[k].obj == h && es[k].className == cls
  }

  /** Nested building leaves the configuration and the instance map alone and only extends the trace. */
  predicate BuildFrame(c: Container, c': Container) {
    && SameConfiguration(c, c')
    && c'.services == c.services
    && c.nextHandle <= c'.nextHandle
    && c.effects <= c'.effects
  }

  /**
   Rewrites one argument. A service reference is looked up with
   `GetDefinition` and built afresh with `Generate`: the instance map is
   neither consulted nor updated and the public flag is not checked. Each
   nested reference consumes one unit of `fuel`.
   */
  function RewriteArgument(c: Container, a: Value, fuel: nat): (o: Outcome<Value>)
    ensures BuildFrame(c, o.state)
    ensures o.result.Ok? ==> ArgumentRewritten(c, a, o.result.value)
    ensures o.result.Ok? && Classify(a).ServiceReference? ==>
      && BuiltBetween(o.result.value, c.nextHandle, o.state.nextHandle)
      && ConstructionRecorded(c, o.state.effects, o.result.value.handle,
                              c.definitions[Resolve(c, Classify(a).id)])
    ensures o.result.Err? ==> o.result.error != NotAccessible
    ensures !Classify(a).ServiceReference? ==> o.result.Ok? && o.state == c
    decreases fuel, 0
  {
    match Classify(a)
    case Literal => Outcome(Ok(a), c)
    case ParameterReference(name) => Outcome(Ok(GetParameter(c, name)), c)
    case ServiceReference(id) =>
      match GetDefinition(c, id)
      case Err(e) => Outcome(Err(e), c)
      case Ok(sub) =>
        if fuel == 0 then Outcome(Err(OutOfFuel), c) else Generate(c, sub, fuel - 1)
  }

  /** Rewrites the arguments left to right, threading the container through; stops at the first failure. */
  function RewriteArguments(c: Container, args: seq<Value>, fuel: nat): (o: Outcome<seq<Value>>)
    ensures BuildFrame(c, o.state)
    ensures o.result.Ok? ==> ArgumentsRewritten(c, args, o.result.value)
    ensures o.result.Ok? ==> ReferencesFresh(args, o.result.value, c.nextHandle, o.state.nextHandle)
    ensures o.result.Err? ==> o.result.error != NotAccessible
    decreases fuel, 1, |args|
  {
    if args == [] then Outcome(Ok([]), c)
    else
      var first := RewriteArgument(c, args[0], fuel);
      match first.result
      case Err(e) => Outcome(Err(e), first.state)
      case Ok(v) =>
        var rest := RewriteArguments(first.state, args[1..], fuel);
        match rest.result
        case Err(e) => Outcome(Err(e), rest.state)
        case Ok(vs) =>
          ConsRewritten(c, first.state, rest.state, args, v, vs);
          Outcome(Ok([v] + vs), rest.state)
  }

  /** Rewriting the head of a list and then its tail rewrites the whole list. */
  lemma ConsRewritten(c: Container, c1: Container, c2: Container, args: seq<Value>, v: Value, vs: seq<Value>)
    requires |args| > 0
    requires BuildFrame(c, c1) && BuildFrame(c1, c2)
    requires ArgumentRewritten(c, args[0], v)
    requires Classify(args[0]).ServiceReference? ==> BuiltBetween(v, c.nextHandle, c1.nextHandle)
    requires ArgumentsRewritten(c1, args[1..], vs)
    requires ReferencesFresh(args[1..], vs, c1.nextHandle, c2.nextHandle)
    ensures ArgumentsRewritten(c, args, [v] + vs)
    ensures ReferencesFresh(args, [v] + vs, c.nextHandle, c2.nextHandle)
  {
    var out := [v] + vs;
    forall i | 1 <= i < |args|
      ensures args[i] == args[1..][i - 1] && out[i] == vs[i - 1]
    {
    }
  }

  /**
   Builds a new instance from a definition: rewrite the arguments,
   instantiate the class, assign the properties, invoke the calls.
   The result is always a freshly built object.
   */
  function Generate(c: Container, d: Definition, fuel: nat): (o: Outcome<Value>)
    ensures BuildFrame(c, o.state)
    ensures o.result.Err? ==> o.result.error != NotAccessible
    ensures o.result.Ok? ==>
      && o.result.value.Obj?
      && o.result.value.handle.Built?
      && c.nextHandle <= o.result.value.handle.n < o.state.nextHandle
      && ConstructionRecorded(c, o.state.effects, o.result.value.handle, d)
    decreases fuel, 2
  {
    var rewritten := RewriteArguments(c, d.arguments, fuel);
    match rewritten.result
    case Err(e) => Outcome(Err(e), rewritten.state)
    case Ok(args) =>
      var s := rewritten.state;
      var h := Built(s.nextHandle);
      var es := s.effects + [Constructed(h, d.className, args)]
                + PropertyEvents(h, d.properties) + CallEvents(h, d.calls);
      ConstructionAppended(c, s.effects, h, d, args);
      Outcome(Ok(Obj(h)), s.(nextHandle := s.nextHandle + 1, effects := es))
  }

  /** Appending a construction from rewritten arguments and its set-up records that construction. */
  lemma ConstructionAppended(c: Container, es: seq<Event>, h: Handle, d: Definition, args: seq<Value>)
    requires ArgumentsRewritten(c, d.arguments, args)
    ensures ConstructionRecorded(c, es + [Constructed(h, d.className, args)]
                                    + PropertyEvents(h, d.properties) + CallEvents(h, d.calls), h, d)
  {
    var setup := PropertyEvents(h, d.properties) + CallEvents(h, d.calls);
    var all := es + [Constructed(h, d.className, args)] + PropertyEvents(h, d.properties) + CallEvents(h, d.calls);
    assert all == (es + [Constructed(h, d.className, args)]) + setup;
    assert |setup| == |d.properties| + |d.calls|;
    assert all[|all| - |setup| - 1] == Constructed(h, d.className, args);
    assert all[|all| - |setup|..] == setup;
  }

  // ---------------------------------------------------------------------
  // Resolution

  /**
   Resolves a service id: lower-case, at most one alias hop, fall back to a
   stored instance when there is no definition, refuse a direct lookup of a
   non-public definition, return a stored instance if any, otherwise build
   one and keep it only when the definition is shared.
   */
  function Get(c: Container, id: string, fuel: nat): (o: Outcome<Value>)
    ensures SameConfiguration(c, o.state)
    ensures o.result == Err(NotAccessible) <==> DirectPrivate(c, id)
    ensures DirectPrivate(c, id) || Resolve(c, id) in c.services ==> o.state == c
    ensures Resolve(c, id) !in c.definitions ==>
      && o.state == c
      && (o.result.Ok? <==> Resolve(c, id) in c.services)
      && (o.result.Ok? ==> o.result.value == c.services[Resolve(c, id)])
      && (o.result.Err? ==> o.result.error == NotDefined)
    ensures Resolve(c, id) in c.definitions && !DirectPrivate(c, id) && Resolve(c, id) in c.services ==>
      o == Outcome(Ok(c.services[Resolve(c, id)]), c)
    ensures Resolve(c, id) in c.definitions && !DirectPrivate(c, id) && Resolve(c, id) !in c.services ==>
      var d := c.definitions[Resolve(c, id)];
      var built := Generate(c, d, fuel);
      && o.result == built.result
      && (built.result.Ok? && d.share ==>
            o.state == built.state.(services := c.services[Resolve(c, id) := built.result.value]))
      && (!(built.result.Ok? && d.share) ==> o.state == built.state)
    ensures
      || o.state.services == c.services
      || (&& o.result.Ok?
          && Resolve(c, id) !in c.services
          && Resolve(c, id) in c.definitions
          && c.definitions[Resolve(c, id)].share
          && o.state.services == c.services[Resolve(c, id) := o.result.value])
  {
    var key := Lower(id);
    var isAlias := key in c.aliases;
    var target := if isAlias then c.aliases[key] else key;
    if target !in c.definitions then
      if target in c.services then Outcome(Ok(c.services[target]), c)
      else Outcome(Err(NotDefined), c)
    else
      var d := c.definitions[target];
      if !d.public && !isAlias then Outcome(Err(NotAccessible), c)
      else if target in c.services then Outcome(Ok(c.services[target]), c)
      else
        var built := Generate(c, d, fuel);
        if built.result.Ok? && d.share then
          Outcome(built.result, built.state.(services := built.state.services[target := built.result.value]))
        else built
  }
}
