/**
 End-to-end scenarios: a private service reached through an alias, and a
 service whose only argument refers to a shared service already fetched.
 */
module Scenarios {
  import opened Ids
  import opened Values
  import opened Definitions
  import opened Containers
  import GenerationLemmas

  lemma LowerLogger()
    ensures Lower("Logger") == "logger"
  {
  }

  /**
   A private `Logger` cannot be fetched by its own id, but it can be
   fetched through the alias `log`, which builds it (the first object the
   container makes) and keeps it.
   */
  lemma PrivateLoggerThroughAlias(fuel: nat)
    ensures var c := SetDefinition(NewContainer(), "Logger", SetPublic(New("Logger"), Bool(false)));
      && Get(c, "Logger", fuel) == Outcome(Err(NotAccessible), c)
      && var c' := SetAlias(c, "log", "Logger");
         && Get(c', "log", fuel).result == Ok(Obj(Built(0)))
         && Get(c', "log", fuel).state.services == c'.services["logger" := Obj(Built(0))]
         && Get(c', "log", fuel).state.effects == [Constructed(Built(0), "Logger", [])]
  {
    LowerLogger();
    LowerOfKey("log");
    var d := SetPublic(New("Logger"), Bool(false));
    var c := SetDefinition(NewContainer(), "Logger", d);
    assert c.definitions == map["logger" := d];
    assert "logger" !in c.services;
    var c' := SetAlias(c, "log", "Logger");
    assert c'.aliases == map["log" := "logger"];
    assert RewriteArguments(c', d.arguments, fuel) == Outcome(Ok([]), c');
  }

  /** A definition with no arguments, no properties and no calls. */
  predicate Plain(d: Definition) {
    d.arguments == [] && d.properties == [] && d.calls == []
  }

  /** Building a plain definition constructs it on the next handle and does nothing else. */
  lemma BuildPlain(c: Container, d: Definition, fuel: nat)
    requires Plain(d)
    ensures Generate(c, d, fuel) ==
      Outcome(Ok(Obj(Built(c.nextHandle))),
              c.(nextHandle := c.nextHandle + 1,
                 effects := c.effects + [Constructed(Built(c.nextHandle), d.className, [])]))
  {
    assert RewriteArguments(c, [], fuel) == Outcome(Ok([]), c);
    assert PropertyEvents(Built(c.nextHandle), []) == [] && CallEvents(Built(c.nextHandle), []) == [];
  }

  /** `get` of a public, shared, plain service that is not built yet builds it and stores it. */
  lemma FetchPlain(c: Container, id: string, fuel: nat)
    requires Lower(id) !in c.aliases && Lower(id) in c.definitions && Lower(id) !in c.services
    requires var d := c.definitions[Lower(id)]; Plain(d) && d.public && d.share
    ensures var n := c.nextHandle;
      var first := Get(c, id, fuel);
      && first.result == Ok(Obj(Built(n)))
      && first.state == c.(services := c.services[Lower(id) := Obj(Built(n))],
                          nextHandle := n + 1,
                          effects := c.effects + [Constructed(Built(n), c.definitions[Lower(id)].className, [])])
  {
    BuildPlain(c, c.definitions[Lower(id)], fuel);
  }

  /** A definition without set-up whose only argument refers to a plain definition. */
  lemma PlainReference(c: Container, d: Definition, b: string, fuel: nat)
    requires fuel > 0
    requires d.arguments == [Str("@" + b)] && d.properties == [] && d.calls == []
    requires Resolve(c, b) in c.definitions && Plain(c.definitions[Resolve(c, b)])
    ensures var n := c.nextHandle;
      var db := c.definitions[Resolve(c, b)];
      var built := Generate(c, d, fuel);
      && built.result == Ok(Obj(Built(n + 1)))
      && built.state.effects ==
           c.effects + [Constructed(Built(n), db.className, []), Constructed(Built(n + 1), d.className, [Obj(Built(n))])]
  {
    var n := c.nextHandle;
    GenerationLemmas.ReferenceSubstitution(c, d, b, fuel);
    assert PropertyEvents(Built(n), []) == [] && CallEvents(Built(n), []) == [];
    assert PropertyEvents(Built(n + 1), []) == [] && CallEvents(Built(n + 1), []) == [];
  }

  /** `get` of a public, shared service whose only argument is `@b`, for a plain `b`, builds a new `b` first. */
  lemma FetchReferencing(c: Container, id: string, b: string, fuel: nat)
    requires fuel > 0
    requires Lower(id) !in c.aliases && Lower(id) in c.definitions && Lower(id) !in c.services
    requires var d := c.definitions[Lower(id)];
      d.arguments == [Str("@" + b)] && d.properties == [] && d.calls == [] && d.public && d.share
    requires Resolve(c, b) in c.definitions && Plain(c.definitions[Resolve(c, b)])
    ensures var n := c.nextHandle;
      var second := Get(c, id, fuel);
      && second.result == Ok(Obj(Built(n + 1)))
      && second.state.effects ==
           c.effects + [Constructed(Built(n), c.definitions[Resolve(c, b)].className, []),
                        Constructed(Built(n + 1), c.definitions[Lower(id)].className, [Obj(Built(n))])]
  {
    PlainReference(c, c.definitions[Lower(id)], b, fuel);
  }

  /**
   A shared, plain service `b` (say `Logger`) and a service `a` (say
   `Cache`) whose only argument is `@b`: fetching `b` and then `a` builds
   two instances of `b`. The stored one is `Built(n)`, but `a` receives a
   new one, `Built(n + 1)`, because a reference never reads the instance
   map.
   */
  lemma ReferenceIgnoresStoredInstance(c: Container, a: string, b: string, fuel: nat)
    requires fuel > 0
    requires Lower(a) != Lower(b)
    requires Lower(a) !in c.aliases && Lower(b) !in c.aliases
    requires Lower(a) !in c.services && Lower(b) !in c.services
    requires Lower(a) in c.definitions && Lower(b) in c.definitions
    requires var da := c.definitions[Lower(a)];
      da.arguments == [Str("@" + b)] && da.properties == [] && da.calls == [] && da.public && da.share
    requires var db := c.definitions[Lower(b)]; Plain(db) && db.public && db.share
    ensures var n := c.nextHandle;
      var first := Get(c, b, fuel);
      var second := Get(first.state, a, fuel);
      && first.result == Ok(Obj(Built(n)))
      && first.state.services[Lower(b)] == Obj(Built(n))
      && second.result == Ok(Obj(Built(n + 2)))
      && second.state.effects ==
           c.effects + [Constructed(Built(n), c.definitions[Lower(b)].className, [])]
           + [Constructed(Built(n + 1), c.definitions[Lower(b)].className, []),
              Constructed(Built(n + 2), c.definitions[Lower(a)].className, [Obj(Built(n + 1))])]
  {
    FetchPlain(c, b, fuel);
    FetchReferencing(Get(c, b, fuel).state, a, b, fuel);
  }
}
