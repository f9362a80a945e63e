/**
 Properties of the container's public operations: case-insensitive keys,
 one-hop aliases, visibility, caching of shared services and freshness of
 unshared ones.
 */
module ContainerLemmas {
  import opened Ids
  import opened Values
  import opened Definitions
  import opened Containers

  /** Ids that differ only in ASCII case address the same entry of every map. */
  lemma CaseInsensitiveIds(c: Container, a: string, b: string, t: string, v: Value, d: Definition, fuel: nat)
    requires EqualIgnoringCase(a, b)
    ensures Get(c, a, fuel) == Get(c, b, fuel)
    ensures GetDefinition(c, a) == GetDefinition(c, b)
    ensures GetParameter(c, a) == GetParameter(c, b)
    ensures Set(c, a, v) == Set(c, b, v)
    ensures SetDefinition(c, a, d) == SetDefinition(c, b, d)
    ensures SetParameter(c, a, v) == SetParameter(c, b, v)
    ensures SetAlias(c, a, t) == SetAlias(c, b, t)
    ensures SetAlias(c, t, a) == SetAlias(c, t, b)
  {
    SameKeyIffEqualIgnoringCase(a, b);
  }

  /** `setDefinition(x, d)` then `getDefinition(y)` yields `d` whenever `x` and `y` agree up to case and are not aliases. */
  lemma SetDefinitionThenGetDefinition(c: Container, x: string, y: string, d: Definition)
    requires EqualIgnoringCase(x, y)
    requires Lower(x) !in c.aliases
    ensures GetDefinition(SetDefinition(c, x, d), y) == Ok(d)
  {
    SameKeyIffEqualIgnoringCase(x, y);
  }

  /** A key holding only an instance has no definition. */
  lemma InstanceIsNoDefinition(c: Container, id: string, v: Value)
    requires Lower(id) !in c.aliases && Lower(id) !in c.definitions
    ensures GetDefinition(Set(c, id, v), id) == Err(NotDefined)
  {
  }

  /** Without a definition, `get` returns the stored instance or fails "not defined", and changes nothing. */
  lemma GetWithoutDefinition(c: Container, id: string, fuel: nat)
    requires Resolve(c, id) !in c.definitions
    ensures Get(c, id, fuel).state == c
    ensures Resolve(c, id) in c.services ==> Get(c, id, fuel).result == Ok(c.services[Resolve(c, id)])
    ensures Resolve(c, id) !in c.services ==> Get(c, id, fuel).result == Err(NotDefined)
  {
  }

  /** The new container resolves `service_container` (in any letter case) to itself. */
  lemma NewContainerResolvesItself(id: string, fuel: nat)
    requires EqualIgnoringCase(id, ContainerId)
    ensures Get(NewContainer(), id, fuel) == Outcome(Ok(Obj(Self)), NewContainer())
  {
    SameKeyIffEqualIgnoringCase(id, ContainerId);
    ContainerIdIsKey();
    var c := NewContainer();
    assert Lower(id) == ContainerId;
    assert Lower(id) !in c.aliases && Lower(id) !in c.definitions && Lower(id) in c.services;
  }

  lemma ContainerIdIsKey()
    ensures Lower(ContainerId) == ContainerId
  {
    assert IsKey(ContainerId);
    LowerOfKey(ContainerId);
  }

  /** An instance stored with `set` under an undefined, unaliased id is returned by `get`. */
  lemma SetThenGet(c: Container, x: string, y: string, v: Value, fuel: nat)
    requires EqualIgnoringCase(x, y)
    requires Lower(x) !in c.aliases && Lower(x) !in c.definitions
    ensures Get(Set(c, x, v), y, fuel) == Outcome(Ok(v), Set(c, x, v))
  {
    SameKeyIffEqualIgnoringCase(x, y);
  }

  /**
   Aliases are followed exactly once: an alias whose target is itself an
   alias is resolved to that target key, not to the target's own target.
   */
  lemma AliasIsOneHop(c: Container, a: string, fuel: nat)
    requires Lower(a) in c.aliases
    ensures Resolve(c, a) == c.aliases[Lower(a)]
    ensures var t := c.aliases[Lower(a)];
      t !in c.definitions && t !in c.services ==>
        Get(c, a, fuel) == Outcome(Err(NotDefined), c) && GetDefinition(c, a) == Err(NotDefined)
  {
  }

  /** A concrete chain `a -> b -> real`: `b` reaches the definition, `a` does not. */
  lemma AliasChainNotFollowed(d: Definition, fuel: nat)
    requires d.arguments == []
    ensures var c := SetAlias(SetAlias(SetDefinition(NewContainer(), "real", d), "b", "real"), "a", "b");
      && Get(c, "a", fuel) == Outcome(Err(NotDefined), c)
      && GetDefinition(c, "a") == Err(NotDefined)
      && GetDefinition(c, "b") == Ok(d)
      && Get(c, "b", fuel).result.Ok?
  {
    LowerOfKey("real");
    LowerOfKey("a");
    LowerOfKey("b");
    var c := SetAlias(SetAlias(SetDefinition(NewContainer(), "real", d), "b", "real"), "a", "b");
    assert c.aliases == map["b" := "real", "a" := "b"];
    assert c.definitions == map["real" := d];
    assert Resolve(c, "a") == "b";
    assert "b" !in c.services;
    assert "real" !in c.services;
    assert RewriteArguments(c, d.arguments, fuel).result.Ok?;
  }

  /** A direct lookup of a non-public definition is refused, even when an instance is already stored. */
  lemma PrivateDirectRefused(c: Container, id: string, fuel: nat)
    requires Lower(id) !in c.aliases && Lower(id) in c.definitions
    requires !c.definitions[Lower(id)].public
    ensures Get(c, id, fuel) == Outcome(Err(NotAccessible), c)
  {
  }

  /** Through an alias, a non-public definition is served like a public one. */
  lemma PrivateViaAlias(c: Container, a: string, fuel: nat)
    requires Lower(a) in c.aliases
    requires c.aliases[Lower(a)] in c.definitions
    ensures var t := c.aliases[Lower(a)];
      && Get(c, a, fuel).result != Err(NotAccessible)
      && (t in c.services ==> Get(c, a, fuel) == Outcome(Ok(c.services[t]), c))
      && (t !in c.services ==> Get(c, a, fuel).result == Generate(c, c.definitions[t], fuel).result)
  {
  }

  /** A stored instance for a defined, accessible id is returned without building anything. */
  lemma CacheHitBuildsNothing(c: Container, id: string, fuel: nat)
    requires Resolve(c, id) in c.definitions && !DirectPrivate(c, id)
    requires Resolve(c, id) in c.services
    ensures Get(c, id, fuel) == Outcome(Ok(c.services[Resolve(c, id)]), c)
  {
  }

  /**
   `get` is idempotent for shared services (and for plain instances): the
   second call returns the same value and changes nothing, so no
   constructor, property assignment or call runs twice.
   */
  lemma SharedGetIdempotent(c: Container, id: string, fuel: nat)
    requires Get(c, id, fuel).result.Ok?
    requires Resolve(c, id) in c.definitions ==> c.definitions[Resolve(c, id)].share
    ensures var first := Get(c, id, fuel);
      Get(first.state, id, fuel) == Outcome(first.result, first.state)
  {
  }

  /** A shared service is built once and then stored under its resolved key. */
  lemma SharedGetCaches(c: Container, id: string, fuel: nat)
    requires Resolve(c, id) in c.definitions && c.definitions[Resolve(c, id)].share
    requires Get(c, id, fuel).result.Ok?
    ensures var first := Get(c, id, fuel);
      && Resolve(c, id) in first.state.services
      && first.state.services[Resolve(c, id)] == first.result.value
  {
  }

  /**
   An unshared service is rebuilt on every call: two successive successful
   lookups yield different objects and neither stores anything.
   */
  lemma UnsharedGetFresh(c: Container, id: string, fuel: nat)
    requires Resolve(c, id) in c.definitions && !c.definitions[Resolve(c, id)].share
    requires Resolve(c, id) !in c.services
    requires Get(c, id, fuel).result.Ok?
    requires Get(Get(c, id, fuel).state, id, fuel).result.Ok?
    ensures var first := Get(c, id, fuel);
      var second := Get(first.state, id, fuel);
      && first.result.value != second.result.value
      && first.state.services == c.services
      && second.state.services == c.services
  {
  }

  /** Redefining an id whose instance is already stored keeps returning that instance. */
  lemma RedefinitionKeepsStoredInstance(c: Container, id: string, d: Definition, fuel: nat)
    requires Lower(id) !in c.aliases && Lower(id) in c.services
    requires d.public
    ensures var c' := SetDefinition(c, id, d);
      Get(c', id, fuel) == Outcome(Ok(c.services[Lower(id)]), c')
  {
  }
}
