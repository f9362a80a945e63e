/**
 A service definition: the recipe the container follows to build one
 service. It is a plain record; the destructors `className`, `arguments`,
 `properties`, `calls`, `public` and `share` are its getters.
 */
module Definitions {
  import opened Values

  /** One post-construction property assignment, `$service->{name} = value`. */
  datatype Property = Property(name: string, value: Value)

  /** One post-construction method call: method name and its argument list. */
  datatype Call = Call(methodName: string, args: seq<Value>)

  datatype Definition = Definition(
    className: string,
    arguments: seq<Value>,
    properties: seq<Property>,
    calls: seq<Call>,
    public: bool,
    share: bool)

  /** The class name is stored as given; it is never validated. */
  function SetClass(d: Definition, name: string): (d': Definition)
    ensures d'.className == name
    ensures d'.arguments == d.arguments && d'.properties == d.properties && d'.calls == d.calls
    ensures d'.public == d.public && d'.share == d.share
  {
    d.(className := name)
  }

  function SetArguments(d: Definition, args: seq<Value>): (d': Definition)
    ensures d'.arguments == args
    ensures d'.className == d.className && d'.properties == d.properties && d'.calls == d.calls
    ensures d'.public == d.public && d'.share == d.share
  {
    d.(arguments := args)
  }

  function SetProperties(d: Definition, props: seq<Property>): (d': Definition)
    ensures d'.properties == props
    ensures d'.className == d.className && d'.arguments == d.arguments && d'.calls == d.calls
    ensures d'.public == d.public && d'.share == d.share
  {
    d.(properties := props)
  }

  function SetCalls(d: Definition, cs: seq<Call>): (d': Definition)
    ensures d'.calls == cs
    ensures d'.className == d.className && d'.arguments == d.arguments && d'.properties == d.properties
    ensures d'.public == d.public && d'.share == d.share
  {
    d.(calls := cs)
  }

  /** The flag is coerced to a boolean with PHP's cast. */
  function SetPublic(d: Definition, flag: Value): (d': Definition)
    ensures d'.public == Truthy(flag)
    ensures flag.Bool? ==> d'.public == flag.truth
    ensures d'.className == d.className && d'.arguments == d.arguments
    ensures d'.properties == d.properties && d'.calls == d.calls && d'.share == d.share
  {
    d.(public := Truthy(flag))
  }

  /** The flag is coerced to a boolean with PHP's cast. */
  function SetShare(d: Definition, flag: Value): (d': Definition)
    ensures d'.share == Truthy(flag)
    ensures flag.Bool? ==> d'.share == flag.truth
    ensures d'.className == d.className && d'.arguments == d.arguments
    ensures d'.properties == d.properties && d'.calls == d.calls && d'.public == d.public
  {
    d.(share := Truthy(flag))
  }

  /** A fresh definition: public, shared, no properties, no calls, and no arguments unless given. */
  function New(className: string, arguments: seq<Value> := []): (d: Definition)
    ensures d.className == className && d.arguments == arguments
    ensures d.properties == [] && d.calls == []
    ensures d.public && d.share
  {
    Definition(className, arguments, [], [], true, true)
  }
}
