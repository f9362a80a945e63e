/**
 Properties of building a service from its definition: the argument
 mini-language, nested references, the role of the recursion bound, and
 what building does not look at (the instance map, the public and share
 flags).
 */
module GenerationLemmas {
  import opened Ids
  import opened Values
  import opened Definitions
  import opened Containers

  // ---------------------------------------------------------------------
  // The argument mini-language

  /** `@id` always reads as a reference to service `id`, whatever `id` is. */
  lemma ClassifyServiceReference(id: string)
    ensures Classify(Str("@" + id)) == ServiceReference(id)
  {
  }

  /** `%name%` reads as a reference to parameter `name` whenever `name` is not empty. */
  lemma ClassifyParameterReference(name: string)
    requires |name| > 0
    ensures Classify(Str("%" + name + "%")) == ParameterReference(name)
  {
  }

  /** A parameter reference is replaced by the parameter's current value, null when unset, and changes nothing. */
  lemma ParameterSubstitution(c: Container, name: string, fuel: nat)
    requires |name| > 0
    ensures RewriteArgument(c, Str("%" + name + "%"), fuel) == Outcome(Ok(GetParameter(c, name)), c)
    ensures Lower(name) !in c.parameters ==>
      RewriteArgument(c, Str("%" + name + "%"), fuel).result == Ok(Null)
  {
  }

  /**
   A reference to an id that has no definition fails "not defined", even
   when an instance is stored under that id.
   */
  lemma ReferenceNeedsDefinition(c: Container, id: string, fuel: nat)
    requires Resolve(c, id) !in c.definitions
    ensures RewriteArgument(c, Str("@" + id), fuel) == Outcome(Err(NotDefined), c)
  {
  }

  /** So `@service_container` cannot be used as an argument, although `get` resolves that id. */
  lemma ServiceContainerReferenceFails(className: string, fuel: nat)
    ensures Generate(NewContainer(), New(className, [Str("@" + ContainerId)]), fuel).result == Err(NotDefined)
  {
    ReferenceNeedsDefinition(NewContainer(), ContainerId, fuel);
  }

  /** How a service reference is rewritten: a definition lookup, the fuel check, then a nested build. */
  lemma ReferenceUnfolds(c: Container, a: Value, fuel: nat)
    requires Classify(a).ServiceReference?
    ensures var key := Resolve(c, Classify(a).id);
      && (key !in c.definitions ==> RewriteArgument(c, a, fuel) == Outcome(Err(NotDefined), c))
      && (key in c.definitions && fuel == 0 ==> RewriteArgument(c, a, fuel) == Outcome(Err(OutOfFuel), c))
      && (key in c.definitions && fuel > 0 ==> RewriteArgument(c, a, fuel) == Generate(c, c.definitions[key], fuel - 1))
  {
  }

  /**
   A reference to a defined service builds a new instance of it through
   `Generate`: nothing is looked up in, or stored into, the instance map,
   and the definition's public flag is not consulted.
   */
  lemma NestedReferenceBuildsAfresh(c: Container, id: string, fuel: nat)
    requires Resolve(c, id) in c.definitions
    requires fuel > 0
    ensures var o := RewriteArgument(c, Str("@" + id), fuel);
      && o == Generate(c, c.definitions[Resolve(c, id)], fuel - 1)
      && o.state.services == c.services
      && (o.result.Ok? ==> o.result.value.Obj? && o.result.value.handle.Built?
                           && o.result.value.handle.n >= c.nextHandle)
  {
  }

  /**
   A definition with the single argument `@b` is built from a new instance
   of `b`, whatever `b`'s own definition is: `b` is built first (with one
   unit of fuel less), then the outer service is constructed with that new
   object as its only argument, on the next handle. If building `b` fails,
   the outer build fails the same way and constructs nothing.
   */
  lemma SingleReferenceSubstitution(c: Container, d: Definition, b: string, fuel: nat)
    requires d.arguments == [Str("@" + b)]
    requires Resolve(c, b) in c.definitions
    requires fuel > 0
    ensures var inner := Generate(c, c.definitions[Resolve(c, b)], fuel - 1);
      var o := Generate(c, d, fuel);
      var outer := Built(inner.state.nextHandle);
      && (inner.result.Ok? ==>
            && o.result == Ok(Obj(outer))
            && o.state.nextHandle == inner.state.nextHandle + 1
            && o.state.effects ==
                 inner.state.effects
                 + [Constructed(outer, d.className, [inner.result.value])]
                 + PropertyEvents(outer, d.properties) + CallEvents(outer, d.calls))
      && (inner.result.Err? ==> o == inner)
  {
    ClassifyServiceReference(b);
    var inner := Generate(c, c.definitions[Resolve(c, b)], fuel - 1);
    assert RewriteArgument(c, d.arguments[0], fuel) == inner;
    assert d.arguments[1..] == [];
    if inner.result.Ok? {
      assert RewriteArguments(inner.state, d.arguments[1..], fuel) == Outcome(Ok([]), inner.state);
      assert [inner.result.value] + [] == [inner.result.value];
      assert RewriteArguments(c, d.arguments, fuel) == Outcome(Ok([inner.result.value]), inner.state);
    } else {
      assert RewriteArguments(c, d.arguments, fuel) == Outcome(Err(inner.result.error), inner.state);
    }
  }

  /**
   A definition with the single argument `@b`, where `b` is defined with no
   arguments, is built from a new instance of `b`: first `b` is constructed
   and set up, then the outer service receives it as its only argument.
   */
  lemma ReferenceSubstitution(c: Container, d: Definition, b: string, fuel: nat)
    requires d.arguments == [Str("@" + b)]
    requires Resolve(c, b) in c.definitions
    requires c.definitions[Resolve(c, b)].arguments == []
    requires fuel > 0
    ensures var inner := Built(c.nextHandle);
      var outer := Built(c.nextHandle + 1);
      var db := c.definitions[Resolve(c, b)];
      var o := Generate(c, d, fuel);
      && o.result == Ok(Obj(outer))
      && o.state.effects ==
           c.effects
           + [Constructed(inner, db.className, [])]
           + PropertyEvents(inner, db.properties) + CallEvents(inner, db.calls)
           + [Constructed(outer, d.className, [Obj(inner)])]
           + PropertyEvents(outer, d.properties) + CallEvents(outer, d.calls)
  {
    ClassifyServiceReference(b);
    var db := c.definitions[Resolve(c, b)];
    var first := RewriteArgument(c, d.arguments[0], fuel);
    assert first == Generate(c, db, fuel - 1);
    assert RewriteArguments(c, db.arguments, fuel - 1) == Outcome(Ok([]), c);
    assert d.arguments[1..] == [];
    assert RewriteArguments(first.state, d.arguments[1..], fuel) == Outcome(Ok([]), first.state);
    var inner := Built(c.nextHandle);
    var innerTrace := [Constructed(inner, db.className, [])]
                      + PropertyEvents(inner, db.properties) + CallEvents(inner, db.calls);
    assert first.state.effects == c.effects + innerTrace;
    assert first.state.nextHandle == c.nextHandle + 1;
    assert first.result == Ok(Obj(inner));
    assert [Obj(inner)] + [] == [Obj(inner)];
    assert RewriteArguments(c, d.arguments, fuel) == Outcome(Ok([Obj(inner)]), first.state);
  }

  /** A recorded construction stays recorded when the trace grows. */
  lemma ConstructedAsLater(es: seq<Event>, es': seq<Event>, h: Handle, cls: string)
    requires es <= es' && ConstructedAs(es, h, cls)
    ensures ConstructedAs(es', h, cls)
  {
    var k :| 0 <= k < |es| && es[k].Constructed? && es[k].obj == h && es[k].className == cls;
    assert es'[k] == es[k];
  }

  /**
   Every `@id` in an argument list, wherever it stands, is replaced by an
   object that the trace records as constructed from the class of `id`'s
   definition.
   */
  lemma {:induction false} ArgumentsBuiltFrom(c: Container, args: seq<Value>, fuel: nat)
    ensures var o := RewriteArguments(c, args, fuel);
      o.result.Ok? ==>
        forall i :: 0 <= i < |args| && Classify(args[i]).ServiceReference? ==>
          ConstructedAs(o.state.effects, o.result.value[i].handle,
                        c.definitions[Resolve(c, Classify(args[i]).id)].className)
    decreases |args|
  {
    var o := RewriteArguments(c, args, fuel);
    if args != [] && o.result.Ok? {
      var first := RewriteArgument(c, args[0], fuel);
      var rest := RewriteArguments(first.state, args[1..], fuel);
      ArgumentsBuiltFrom(first.state, args[1..], fuel);
      assert o.result.value == [first.result.value] + rest.result.value;
      assert o.state == rest.state;
      forall i | 0 <= i < |args| && Classify(args[i]).ServiceReference?
        ensures ConstructedAs(o.state.effects, o.result.value[i].handle,
                              c.definitions[Resolve(c, Classify(args[i]).id)].className)
      {
        var cls := c.definitions[Resolve(c, Classify(args[i]).id)].className;
        if i == 0 {
          var h := first.result.value.handle;
          var d := c.definitions[Resolve(c, Classify(args[0]).id)];
          var tail := |d.properties| + |d.calls|;
          var es := first.state.effects;
          assert es[|es| - tail - 1].obj == h && es[|es| - tail - 1].className == cls;
          ConstructedAsLater(es, o.state.effects, h, cls);
        } else {
          assert args[i] == args[1..][i - 1] && o.result.value[i] == rest.result.value[i - 1];
          assert Resolve(first.state, Classify(args[i]).id) == Resolve(c, Classify(args[i]).id);
        }
      }
    }
  }

  /**
   So the constructor of a built object receives, for each `@id` among its
   declared arguments, an object constructed from `id`'s class.
   */
  lemma GenerateArgumentsBuiltFrom(c: Container, d: Definition, fuel: nat)
    ensures var o := Generate(c, d, fuel);
      var tail := |d.properties| + |d.calls|;
      o.result.Ok? ==>
        var e := o.state.effects[|o.state.effects| - tail - 1];
        forall i :: 0 <= i < |d.arguments| && Classify(d.arguments[i]).ServiceReference? ==>
          ConstructedAs(o.state.effects, e.args[i].handle,
                        c.definitions[Resolve(c, Classify(d.arguments[i]).id)].className)
  {
    var o := Generate(c, d, fuel);
    var rewritten := RewriteArguments(c, d.arguments, fuel);
    if o.result.Ok? {
      ArgumentsBuiltFrom(c, d.arguments, fuel);
      var s := rewritten.state;
      var h := Built(s.nextHandle);
      var setup := PropertyEvents(h, d.properties) + CallEvents(h, d.calls);
      assert o.state.effects == (s.effects + [Constructed(h, d.className, rewritten.result.value)]) + setup;
      var tail := |d.properties| + |d.calls|;
      assert o.state.effects[|o.state.effects| - tail - 1].args == rewritten.result.value;
      forall i | 0 <= i < |d.arguments| && Classify(d.arguments[i]).ServiceReference?
        ensures ConstructedAs(o.state.effects, rewritten.result.value[i].handle,
                              c.definitions[Resolve(c, Classify(d.arguments[i]).id)].className)
      {
        ConstructedAsLater(s.effects, o.state.effects, rewritten.result.value[i].handle,
                           c.definitions[Resolve(c, Classify(d.arguments[i]).id)].className);
      }
    }
  }

  // ---------------------------------------------------------------------
  // When a build succeeds

  /**
   Rewriting can only fail at a service reference: literals and parameter
   references always go through, so a list without any `@id` is always
   rewritten.
   */
  lemma {:induction false} RewriteArgumentsFailOnlyOnReference(c: Container, args: seq<Value>, fuel: nat)
    ensures RewriteArguments(c, args, fuel).result.Err? ==>
      exists i :: 0 <= i < |args| && Classify(args[i]).ServiceReference?
    decreases |args|
  {
    if args != [] && RewriteArguments(c, args, fuel).result.Err? {
      var first := RewriteArgument(c, args[0], fuel);
      if first.result.Ok? {
        RewriteArgumentsFailOnlyOnReference(first.state, args[1..], fuel);
        var j :| 0 <= j < |args[1..]| && Classify(args[1..][j]).ServiceReference?;
        assert args[j + 1] == args[1..][j];
      }
    }
  }

  /**
   So a build fails only when the definition declares a service reference
   among its arguments: the missing nested definition or the recursion
   bound is met there.
   */
  lemma GenerateFailsOnlyOnReference(c: Container, d: Definition, fuel: nat)
    ensures Generate(c, d, fuel).result.Err? ==>
      exists i :: 0 <= i < |d.arguments| && Classify(d.arguments[i]).ServiceReference?
  {
    RewriteArgumentsFailOnlyOnReference(c, d.arguments, fuel);
  }

  // ---------------------------------------------------------------------
  // The recursion bound

  /**
   The bound only ever cuts a build short: a build that did not run out of
   fuel gives the same result and the same container with any larger bound.
   */
  lemma {:induction false} GenerateFuelMonotone(c: Container, d: Definition, fuel: nat, more: nat)
    requires fuel <= more
    requires Generate(c, d, fuel).result != Err(OutOfFuel)
    ensures Generate(c, d, more) == Generate(c, d, fuel)
    decreases fuel, 2
  {
    RewriteArgumentsFuelMonotone(c, d.arguments, fuel, more);
  }

  lemma {:induction false} RewriteArgumentsFuelMonotone(c: Container, args: seq<Value>, fuel: nat, more: nat)
    requires fuel <= more
    requires RewriteArguments(c, args, fuel).result != Err(OutOfFuel)
    ensures RewriteArguments(c, args, more) == RewriteArguments(c, args, fuel)
    decreases fuel, 1, |args|
  {
    if args != [] {
      var first := RewriteArgument(c, args[0], fuel);
      RewriteArgumentFuelMonotone(c, args[0], fuel, more);
      if first.result.Ok? {
        RewriteArgumentsFuelMonotone(first.state, args[1..], fuel, more);
      }
    }
  }

  lemma {:induction false} RewriteArgumentFuelMonotone(c: Container, a: Value, fuel: nat, more: nat)
    requires fuel <= more
    requires RewriteArgument(c, a, fuel).result != Err(OutOfFuel)
    ensures RewriteArgument(c, a, more) == RewriteArgument(c, a, fuel)
    decreases fuel, 0
  {
    match Classify(a)
    case Literal =>
    case ParameterReference(_) =>
    case ServiceReference(id) =>
      match GetDefinition(c, id)
      case Err(_) =>
      case Ok(sub) =>
        GenerateFuelMonotone(c, sub, fuel - 1, more - 1);
  }

  // ---------------------------------------------------------------------
  // What building ignores

  /** A definition with its two flags blanked out: what building actually reads. */
  function Recipe(d: Definition): Definition {
    d.(public := true, share := true)
  }

  /**
   The two containers agree on everything building reads: aliases,
   parameters, the handle counter, the trace and the definitions up to
   their flags. Their instance maps may differ arbitrarily.
   */
  predicate SameRecipes(c1: Container, c2: Container) {
    && c1.aliases == c2.aliases
    && c1.parameters == c2.parameters
    && c1.nextHandle == c2.nextHandle
    && c1.effects == c2.effects
    && c1.definitions.Keys == c2.definitions.Keys
    && forall k :: k in c1.definitions ==> Recipe(c1.definitions[k]) == Recipe(c2.definitions[k])
  }

  /**
   Building depends neither on the instance map nor on any public or share
   flag: containers that agree on the recipes build identical results and
   leave identical traces.
   */
  lemma {:induction false} GenerateIgnoresCacheAndFlags(c1: Container, c2: Container, d1: Definition, d2: Definition, fuel: nat)
    requires SameRecipes(c1, c2)
    requires Recipe(d1) == Recipe(d2)
    ensures Generate(c1, d1, fuel).result == Generate(c2, d2, fuel).result
    ensures SameRecipes(Generate(c1, d1, fuel).state, Generate(c2, d2, fuel).state)
    decreases fuel, 2
  {
    assert d1.arguments == d2.arguments;
    RewriteArgumentsIgnoreCacheAndFlags(c1, c2, d1.arguments, fuel);
    var r1, r2 := RewriteArguments(c1, d1.arguments, fuel), RewriteArguments(c2, d2.arguments, fuel);
    if r1.result.Ok? {
      var h := Built(r1.state.nextHandle);
      assert Generate(c1, d1, fuel).state.effects ==
        r1.state.effects + [Constructed(h, d1.className, r1.result.value)] + PropertyEvents(h, d1.properties) + CallEvents(h, d1.calls);
      assert Generate(c2, d2, fuel).state.effects ==
        r2.state.effects + [Constructed(h, d2.className, r2.result.value)] + PropertyEvents(h, d2.properties) + CallEvents(h, d2.calls);
    }
  }

  lemma {:induction false} RewriteArgumentsIgnoreCacheAndFlags(c1: Container, c2: Container, args: seq<Value>, fuel: nat)
    requires SameRecipes(c1, c2)
    ensures RewriteArguments(c1, args, fuel).result == RewriteArguments(c2, args, fuel).result
    ensures SameRecipes(RewriteArguments(c1, args, fuel).state, RewriteArguments(c2, args, fuel).state)
    decreases fuel, 1, |args|
  {
    if args != [] {
      RewriteArgumentIgnoresCacheAndFlags(c1, c2, args[0], fuel);
      var first1 := RewriteArgument(c1, args[0], fuel);
      var first2 := RewriteArgument(c2, args[0], fuel);
      if first1.result.Ok? {
        RewriteArgumentsIgnoreCacheAndFlags(first1.state, first2.state, args[1..], fuel);
      }
    }
  }

  lemma {:induction false} RewriteArgumentIgnoresCacheAndFlags(c1: Container, c2: Container, a: Value, fuel: nat)
    requires SameRecipes(c1, c2)
    ensures RewriteArgument(c1, a, fuel).result == RewriteArgument(c2, a, fuel).result
    ensures SameRecipes(RewriteArgument(c1, a, fuel).state, RewriteArgument(c2, a, fuel).state)
    decreases fuel, 0
  {
    if Classify(a).ServiceReference? {
      var key := Resolve(c1, Classify(a).id);
      assert key == Resolve(c2, Classify(a).id);
      ReferenceUnfolds(c1, a, fuel);
      ReferenceUnfolds(c2, a, fuel);
      if key in c1.definitions && fuel > 0 {
        GenerateIgnoresCacheAndFlags(c1, c2, c1.definitions[key], c2.definitions[key], fuel - 1);
      }
    }
  }

  /** In particular, what is stored in the instance map never changes what a build produces. */
  lemma GenerateIgnoresInstances(c: Container, d: Definition, services: map<string, Value>, fuel: nat)
    ensures Generate(c.(services := services), d, fuel).result == Generate(c, d, fuel).result
    ensures Generate(c.(services := services), d, fuel).state ==
            Generate(c, d, fuel).state.(services := services)
  {
    GenerateIgnoresCacheAndFlags(c.(services := services), c, d, d, fuel);
  }
}
